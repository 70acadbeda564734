/** WuwaLauncherApp: start-up (directories, configuration, language), the
    language switch, and the handlers that change the configuration (game
    directory, window geometry, background image). */
module Launcher {
  import opened Text
  import opened Paths
  import opened JsonValues
  import opened Disk
  import opened ConfigStore
  import opened Template
  import opened Localization
  import opened Background
  import opened Navigation

  /** An info popup, as the catalogs in force when it opened and the
      message keys and parameters its title and text are translated from. */
  datatype Notice = Notice(loc: Localizer, titleKey: string, messageKey: string, params: map<string, string>)

  /** The popup's title. */
  function NoticeTitle(n: Notice): string
  {
    Translate(n.loc, n.titleKey, map[])
  }

  /** The popup's text. */
  function NoticeMessage(n: Notice): string
  {
    Translate(n.loc, n.messageKey, n.params)
  }

  /** The popup opened when saving or copying fails with the given error text. */
  function SaveErrorNotice(loc: Localizer, error: string): (n: Notice)
    ensures n.params.Keys == {"error"} && n.params["error"] == error
  {
    Notice(loc, "popup.save_error.title", "popup.save_error.message", map["error" := error])
  }

  /** The file system after the four mkdir calls at start-up: the
      directories exist, nothing that existed is gone, and no file reads
      differently. */
  function MakeDirs(fs: FileSystem, l: Layout): (r: FileSystem)
    ensures Exists(r, l.appRoot) && Exists(r, UserDataDir(l)) && Exists(r, UserAssetsDir(l)) && Exists(r, UiAssetsDir(l))
    ensures forall p :: Exists(fs, p) ==> Exists(r, p)
    ensures forall p :: ReadConfig(r, p) == ReadConfig(fs, p)
    ensures forall code :: LoadLanguageFile(r, l, code) == LoadLanguageFile(fs, l, code)
  {
    fs.(dirs := fs.dirs + {l.appRoot, UserDataDir(l), UserAssetsDir(l), UiAssetsDir(l)})
  }

  /** The language start-up asks for: the configured one if it is a
      supported code, DEFAULT_LANG otherwise. */
  function InitialLanguage(cfg: Document): (r: string)
    ensures r in AvailableLanguages
    ensures "language" in cfg && cfg["language"].Str? && cfg["language"].s in AvailableLanguages ==> r == cfg["language"].s
    ensures !("language" in cfg && cfg["language"].Str? && cfg["language"].s in AvailableLanguages) ==> r == DefaultLang
  {
    var lang := Get(cfg, "language", Str(DefaultLang));
    if lang.Str? && lang.s in AvailableLanguages then lang.s else DefaultLang
  }

  /** on_file_chosen's directory: the chosen path, or its parent when it is a file. */
  function ChosenDir(fs: FileSystem, picked: string): (r: Path)
    ensures Parse(picked) in fs.files ==> r == Parent(Parse(picked))
    ensures Parse(picked) !in fs.files ==> r == Parse(picked)
    ensures WellFormed(r)
  {
    var selected := Parse(picked);
    if selected in fs.files then Parent(selected) else selected
  }

  /** Choosing either the game directory or the executable inside it sets a
      game directory from which the game can be started, whatever the
      following save does. */
  lemma ChoosingGameEnablesPlay(fs: FileSystem, l: Layout, dir: Path, picked: string, doc: Document, io: IoResult)
    requires WellFormed(dir) && dir.absolute
    requires dir in fs.dirs && dir !in fs.files && Child(dir, GameExecutable) in fs.files
    requires picked == ToString(dir) || picked == ToString(Child(dir, GameExecutable))
    ensures ChosenDir(fs, picked) == dir
    ensures CanPlay(SaveConfig(fs, ConfigFile(l), doc, io), ToString(ChosenDir(fs, picked)))
  {
    var exe := Child(dir, GameExecutable);
    assert GameExecutable[0] == 'W';
    assert WellFormed(exe) by {
      assert forall i :: 0 <= i < |dir.parts| ==> exe.parts[i] == dir.parts[i];
      assert exe.parts[|dir.parts|] == GameExecutable;
      assert '/' !in GameExecutable;
    }
    ParseToString(dir);
    ParseToString(exe);
    ParentOfChild(dir, GameExecutable);
    ExecutableDirectoryCanPlay(fs, dir);
  }

  /** The entries select_background deletes from dir: the files named
      background.* whose unlink succeeds. Directories of that name, and the
      files in stuck (those whose unlink raises, say because another program
      holds them open), survive, since the failure is ignored. */
  function StaleBackgrounds(fs: FileSystem, dir: Path, stuck: set<Path>): set<Path>
  {
    set p | p in fs.files && p !in stuck && p.parts != [] && Parent(p) == dir && IsBackgroundName(Name(p))
  }

  /** The file system after select_background's mkdir and deletions: the
      assets directory exists, only background.* files in it are removed,
      and the only such files left are the stuck ones. */
  function ClearedForBackground(fs: FileSystem, l: Layout, stuck: set<Path>): (r: FileSystem)
    ensures r.dirs == fs.dirs + {UiAssetsDir(l)}
    ensures r.files <= fs.files && r.configs == fs.configs && r.catalogs == fs.catalogs
    ensures forall p :: p in fs.files && (p in stuck || p.parts == [] || Parent(p) != UiAssetsDir(l) || !IsBackgroundName(Name(p)))
                        ==> p in r.files
    ensures forall n :: IsBackgroundName(n) && Child(UiAssetsDir(l), n) in r.files ==> Child(UiAssetsDir(l), n) in stuck
  {
    var ui := UiAssetsDir(l);
    forall n | IsBackgroundName(n) && Child(ui, n) in fs.files - StaleBackgrounds(fs, ui, stuck)
      ensures Child(ui, n) in stuck
    {
      ParentOfChild(ui, n);
    }
    fs.(dirs := fs.dirs + {ui}, files := fs.files - StaleBackgrounds(fs, ui, stuck))
  }

  /** Where shutil.copy2 writes: into dest, or inside it when dest is a directory. */
  function CopyTarget(fs: FileSystem, src: Path, dest: Path): Path
  {
    if dest in fs.dirs then Child(dest, Name(src)) else dest
  }

  /** A completed copy: target exists with the content of src. */
  function Copy(fs: FileSystem, src: Path, target: Path): (r: FileSystem)
    ensures r.files == fs.files + {target} && r.dirs == fs.dirs
    ensures src in fs.files ==> ReadConfig(r, target) == ReadConfig(fs, src)
  {
    fs.(files := fs.files + {target},
        configs := if src in fs.configs then fs.configs[target := fs.configs[src]] else fs.configs - {target},
        catalogs := if src in fs.catalogs then fs.catalogs[target := fs.catalogs[src]] else fs.catalogs - {target})
  }

  /** Picking the background image already in use, stored under the name
      select_background would give it, deletes it before the copy: the copy
      cannot succeed and the image is gone. */
  lemma ReselectingCurrentBackgroundLosesIt(fs: FileSystem, l: Layout, stuck: set<Path>, src: Path)
    requires BackgroundDest(l, src) == src && Suffix(src) != ""
    requires src in fs.files && src !in stuck
    ensures src !in ClearedForBackground(fs, l, stuck).files
  {
    BackgroundDestSuffix(l, src);
  }

  /** The loop of _refresh_language_maps: each code's display name is
      recorded, and the name mapped back to the code. */
  method BuildLanguageMaps(loc: Localizer, codes: seq<string>) returns (displayMap: map<string, string>, lookup: map<string, string>)
    ensures displayMap == DisplayMapOf(codes, DisplayNames(loc, codes))
    ensures lookup == LookupOf(codes, DisplayNames(loc, codes))
  {
    displayMap := map[];
    lookup := map[];
    var i := 0;
    while i < |codes|
      invariant 0 <= i <= |codes|
      invariant displayMap == DisplayMapOf(codes[..i], DisplayNames(loc, codes[..i]))
      invariant lookup == LookupOf(codes[..i], DisplayNames(loc, codes[..i]))
    {
      var code := codes[i];
      var display := DisplayName(loc, code);
      NamesStep(loc, codes, i);
      displayMap := displayMap[code := display];
      lookup := lookup[display := code];
      i := i + 1;
    }
    assert codes[..i] == codes;
  }

  /** One more code extends the labels by its own. */
  lemma NamesStep(loc: Localizer, codes: seq<string>, i: nat)
    requires i < |codes|
    ensures var names := DisplayNames(loc, codes[..i + 1]);
      && codes[..i + 1][..i] == codes[..i] && codes[..i + 1][i] == codes[i]
      && names[..i] == DisplayNames(loc, codes[..i]) && names[i] == DisplayName(loc, codes[i])
  {
    assert codes[..i + 1][..i] == codes[..i];
  }

  /** Everything a LauncherApp holds that its methods change, as one value. */
  datatype AppState = AppState(
    fs: FileSystem, cfg: Document, currentLanguage: string, translations: Catalog, fallbackTranslations: Catalog,
    displayMap: map<string, string>, displayLookup: map<string, string>, initialDir: string,
    notices: seq<Notice>, catalogReads: seq<string>, saves: seq<Document>)

  /** The state __init__ leaves behind, from the file system it starts
      with: the directories made, the configuration loaded and its legacy
      game_path converted, the requested language resolved, both of its
      catalogs read and its display maps built, the missing settings filled
      in, the configuration written back exactly when a conversion, a
      fallback load or a filled-in setting changed it, no popup shown and
      no directory remembered yet. */
  ghost function Boot(l: Layout, fs0: FileSystem, window: WindowGeometry, save: IoResult): AppState
    requires Migratable(LoadConfig(MakeDirs(fs0, l), ConfigFile(l), ConfigFallbacks(l)).data)
  {
    var fs1 := MakeDirs(fs0, l);
    var loaded := LoadConfig(fs1, ConfigFile(l), ConfigFallbacks(l));
    var migrated := Migrate(loaded.data);
    var requested := InitialLanguage(migrated.cfg);
    var lang := ResolvedLanguage(fs1, l, requested);
    var loc := Localizer(LoadLanguageFile(fs1, l, lang), LoadLanguageFile(fs1, l, FallbackLang));
    var names := DisplayNames(loc, AvailableLanguages);
    var filled := FillDefaults(migrated.cfg, lang, window);
    var writes := migrated.converted || loaded.needsSave || filled.applied;
    AppState(
      if writes then SaveConfig(fs1, ConfigFile(l), filled.cfg, save) else fs1,
      filled.cfg, lang, loc.active, loc.fallback,
      DisplayMapOf(AvailableLanguages, names), LookupOf(AvailableLanguages, names), "", [],
      [FallbackLang] + CatalogLoads(fs1, l, requested),
      if writes then [filled.cfg] else [])
  }

  /** The work of __init__ on values: the result is Boot of the inputs, the
      configuration is settled, and the display maps match the language. */
  method Startup(l: Layout, fs0: FileSystem, window: WindowGeometry, save: IoResult) returns (s: AppState)
    requires Migratable(LoadConfig(MakeDirs(fs0, l), ConfigFile(l), ConfigFallbacks(l)).data)
    ensures s == Boot(l, fs0, window, save)
    ensures LanguageState(AvailableLanguages, s.currentLanguage, Localizer(s.translations, s.fallbackTranslations), s.displayMap, s.displayLookup)
    ensures SettledConfig(s.cfg, s.currentLanguage)
  {
    var fs1 := MakeDirs(fs0, l);
    var loaded := LoadConfig(fs1, ConfigFile(l), ConfigFallbacks(l));
    // cfg.pop("game_path") and its conversion to "game_dir"
    var migrated := Migrate(loaded.data);
    var requested := InitialLanguage(migrated.cfg);
    // set_language(requested, persist=False), with no root widget yet
    var fallback := LoadLanguageFile(fs1, l, FallbackLang);
    var lang := ResolvedLanguage(fs1, l, requested);
    var active := LoadLanguageFile(fs1, l, lang);
    var names, lookup := BuildLanguageMaps(Localizer(active, fallback), AvailableLanguages);
    var loads := [FallbackLang] + CatalogLoads(fs1, l, requested);
    // the missing settings, and the write-back when anything changed
    var filled := FillDefaults(migrated.cfg, lang, window);
    var cfg := filled.cfg;
    var fs, saves := fs1, [];
    if migrated.converted || loaded.needsSave || filled.applied {
      fs, saves := SaveConfig(fs1, ConfigFile(l), cfg, save), [cfg];
    }
    s := AppState(fs, cfg, lang, active, fallback, names, lookup, "", [], loads, saves);
  }

  /** Start-up writes the configuration back, once, exactly when the legacy
      key was present, the data did not come from the primary file, or
      filling in the settings changed the document. Without a write, or
      when the write fails, the disk is left as the directories made it; a
      successful write leaves the final configuration on disk; one that
      fails after opening config.json leaves it truncated. */
  lemma BootWritesBack(l: Layout, fs0: FileSystem, window: WindowGeometry, save: IoResult)
    requires Migratable(LoadConfig(MakeDirs(fs0, l), ConfigFile(l), ConfigFallbacks(l)).data)
    ensures var loaded := LoadConfig(MakeDirs(fs0, l), ConfigFile(l), ConfigFallbacks(l));
            var b := Boot(l, fs0, window, save);
            && (b.saves == [] || b.saves == [b.cfg])
            && (b.saves != [] <==> ("game_path" in loaded.data && loaded.data["game_path"] != Null)
                                   || loaded.needsSave || b.cfg != Migrate(loaded.data).cfg)
            && (b.saves == [] || (save.Failed? && !save.clobbered) ==> b.fs == MakeDirs(fs0, l))
            && (b.saves != [] && save.Done? ==> ReadConfig(b.fs, ConfigFile(l)) == Some(b.cfg))
            && (b.saves != [] && save.Failed? && save.clobbered && ConfigFile(l) !in MakeDirs(fs0, l).dirs ==>
                  Exists(b.fs, ConfigFile(l)) && ReadConfig(b.fs, ConfigFile(l)).None?)
  {
    var fs1 := MakeDirs(fs0, l);
    var loaded := LoadConfig(fs1, ConfigFile(l), ConfigFallbacks(l));
    var migrated := Migrate(loaded.data);
    FillDefaultsChanges(migrated.cfg, ResolvedLanguage(fs1, l, InitialLanguage(migrated.cfg)), window);
  }

  /** The outcome of the start-up write touches only the disk: every other
      part of the state is the same whether it succeeded or failed. */
  lemma BootIgnoresSaveOutcome(l: Layout, fs0: FileSystem, window: WindowGeometry, save1: IoResult, save2: IoResult)
    requires Migratable(LoadConfig(MakeDirs(fs0, l), ConfigFile(l), ConfigFallbacks(l)).data)
    ensures Boot(l, fs0, window, save1).(fs := fs0) == Boot(l, fs0, window, save2).(fs := fs0)
  {
  }

  /** A write of config.json that fails after truncating it loses the
      settings: the next load finds the file present but undecodable, and
      unless a fallback decodes it starts from an empty configuration. */
  lemma ClobberedSaveLosesSettings(fs: FileSystem, l: Layout, doc: Document, message: string)
    requires ConfigFile(l) !in fs.dirs
    ensures var r := LoadConfig(SaveConfig(fs, ConfigFile(l), doc, Failed(message, true)), ConfigFile(l), ConfigFallbacks(l));
            !r.needsSave ==> r.data == map[]
  {
  }

  /** s after one save_config attempt of its configuration. */
  function AfterSave(s: AppState, l: Layout, save: IoResult): AppState
  {
    s.(fs := SaveConfig(s.fs, ConfigFile(l), s.cfg, save), saves := s.saves + [s.cfg])
  }

  /** s after a save attempt whose failure opens the save-error popup, worded
      in the catalogs of s. */
  function AfterReportedSave(s: AppState, l: Layout, save: IoResult): AppState
  {
    var t := AfterSave(s, l, save);
    if save.Failed? then t.(notices := t.notices + [SaveErrorNotice(Localizer(s.translations, s.fallbackTranslations), save.message)])
    else t
  }

  /** s after set_language(code, persist=False) without a root widget: the
      resolved language and its catalog active, the catalog files read, the
      display maps rebuilt; the configuration, disk and popups untouched. */
  function Switched(s: AppState, l: Layout, code: string): AppState
  {
    var lang := ResolvedLanguage(s.fs, l, code);
    var loc := Localizer(LoadLanguageFile(s.fs, l, lang), s.fallbackTranslations);
    var names := DisplayNames(loc, AvailableLanguages);
    s.(currentLanguage := lang, translations := loc.active,
       displayMap := DisplayMapOf(AvailableLanguages, names), displayLookup := LookupOf(AvailableLanguages, names),
       catalogReads := s.catalogReads + CatalogLoads(s.fs, l, code))
  }

  /** s after set_language(code, persist): Switched, then with persist the
      language stored and the configuration saved, a failure reported. */
  function LanguageSet(s: AppState, l: Layout, code: string, persist: bool, save: IoResult): AppState
  {
    var t := Switched(s, l, code);
    if persist then AfterReportedSave(t.(cfg := t.cfg["language" := Str(t.currentLanguage)]), l, save) else t
  }

  class LauncherApp {
    const layout: Layout
    /** available_languages, in order. */
    const availableLanguages: seq<string>
    /** The file system as the launcher sees it. */
    var fs: FileSystem
    var cfg: Document
    var currentLanguage: string
    var translations: Catalog
    var fallbackTranslations: Catalog
    var displayMap: map<string, string>
    var displayLookup: map<string, string>
    var initialDir: string
    /** The info popups opened, in order. */
    var notices: seq<Notice>
    /** The language codes whose catalog files were read, in order. */
    ghost var catalogReads: seq<string>
    /** The documents handed to save_config, in order. */
    ghost var saves: seq<Document>

    /** The catalogs translate consults. */
    function Loc(): Localizer
      reads this`translations, this`fallbackTranslations
    {
      Localizer(translations, fallbackTranslations)
    }

    /** The active language is supported and both display maps match it. */
    ghost predicate Valid()
      reads this`currentLanguage, this`translations, this`fallbackTranslations, this`displayMap, this`displayLookup
    {
      LanguageState(availableLanguages, currentLanguage, Loc(), displayMap, displayLookup)
    }

    /** The configuration after start-up: every setting present, the legacy
      key gone, the language the active one. */
    ghost predicate Settled()
      reads this`cfg, this`currentLanguage
    {
      SettledConfig(cfg, currentLanguage)
    }

    /** The fields as one AppState value. */
    ghost function State(): AppState
      reads this
    {
      AppState(fs, cfg, currentLanguage, translations, fallbackTranslations, displayMap, displayLookup,
               initialDir, notices, catalogReads, saves)
    }

    /** WuwaLauncherApp.__init__: creates the directories, loads and migrates
      the configuration, activates a language, fills in missing settings and
      writes the configuration back when anything was converted, loaded
      from a fallback or filled in. A failed write is ignored. */
    constructor (l: Layout, fs0: FileSystem, window: WindowGeometry, save: IoResult)
      requires Migratable(LoadConfig(MakeDirs(fs0, l), ConfigFile(l), ConfigFallbacks(l)).data)
      ensures layout == l
      ensures State() == Boot(l, fs0, window, save)
      ensures Valid() && Settled()
    {
      layout := l;
      availableLanguages := AvailableLanguages;
      var s := Startup(l, fs0, window, save);
      fs, cfg, currentLanguage, translations, fallbackTranslations := s.fs, s.cfg, s.currentLanguage, s.translations, s.fallbackTranslations;
      displayMap, displayLookup, initialDir, notices := s.displayMap, s.displayLookup, s.initialDir, s.notices;
      catalogReads, saves := s.catalogReads, s.saves;
    }

    /** _save_config_silent: one write attempt; a failure is ignored. */
    method SaveSilently(save: IoResult)
      modifies this
      ensures State() == AfterSave(old(State()), layout, save)
    {
      saves := saves + [cfg];
      fs := SaveConfig(fs, ConfigFile(layout), cfg, save);
    }

    /** A write attempt whose failure opens the save-error popup. */
    method SaveReporting(save: IoResult)
      modifies this
      ensures State() == AfterReportedSave(old(State()), layout, save)
    {
      SaveSilently(save);
      if save.Failed? {
        ShowSaveError(save.message);
      }
    }

    /** Opens the save-error popup for the given error text. */
    method ShowSaveError(error: string)
      modifies this
      ensures State() == old(State()).(notices := old(notices) + [SaveErrorNotice(Loc(), error)])
    {
      notices := notices + [SaveErrorNotice(Loc(), error)];
    }

    /** _refresh_language_maps: one display name per supported code, and the
      reverse lookup from display name to code. */
    method RefreshLanguageMaps()
      modifies this
      ensures var names := DisplayNames(Loc(), availableLanguages);
        State() == old(State()).(displayMap := DisplayMapOf(availableLanguages, names),
                                 displayLookup := LookupOf(availableLanguages, names))
    {
      displayMap, displayLookup := BuildLanguageMaps(Loc(), availableLanguages);
    }

    /** language_display_for(code): the code's display name, or the code
      itself for an unsupported one. */
    function LanguageDisplayFor(code: string): (r: string)
      reads this
      ensures Valid() && code in availableLanguages ==> r == DisplayName(Loc(), code)
      ensures Valid() && code !in availableLanguages ==> r == code
    {
      DisplayMapGives(Loc(), availableLanguages, code);
      if code in displayMap then displayMap[code] else code
    }

    /** set_language(code, persist): activates the resolved language, reads at
      most two catalogs, rebuilds the display maps, optionally stores the
      language and saves, and refreshes the root widget if there is one:
      its play state and status line, and its sidebar's labels. */
    method SetLanguage(code: string, persist: bool, save: IoResult, root: LauncherRoot?)
      requires Valid() && Settled()
      modifies this, root, if root == null then null else root.sidebar
      ensures State() == LanguageSet(old(State()), layout, code, persist, save)
      ensures Valid()
      ensures persist ==> Settled()
      ensures root != null ==>
        root.View() == old(root.View()).(canPlay := CanPlay(fs, root.gameDir), statusText := StatusText(fs, Some(Loc()), root.gameDir))
      ensures root != null && root.sidebar != null ==>
        root.sidebar.View() == old(root.sidebar.View()).(buttons := Relabelled(old(root.sidebar.buttons), Loc()))
    {
      ApplyLanguage(code, persist, save);
      ghost var s := State();
      if root != null {
        root.ApplyTranslations(fs, Some(Loc()));
      }
      assert State() == s;
    }

    /** set_language's work on the application itself: the switch, and with
      persist the stored language and the save. */
    method ApplyLanguage(code: string, persist: bool, save: IoResult)
      requires Valid() && Settled()
      modifies this
      ensures State() == LanguageSet(old(State()), layout, code, persist, save)
      ensures Valid()
      ensures persist ==> Settled()
    {
      SwitchLanguage(code);
      if persist {
        PersistLanguage(save);
      }
    }

    /** set_language without persisting and without a root widget, as
      __init__ calls it: activation and the display maps only. */
    method SwitchLanguage(code: string)
      requires availableLanguages == AvailableLanguages
      modifies this
      ensures State() == Switched(old(State()), layout, code)
      ensures Valid()
    {
      ActivateLanguage(code);
      RefreshLanguageMaps();
    }

    /** The persisting part of set_language: stores the active language and
      saves, reporting a failure. */
    method PersistLanguage(save: IoResult)
      requires RequiredKeys <= cfg.Keys && "game_path" !in cfg
      modifies this
      ensures State() == AfterReportedSave(old(State()).(cfg := old(cfg)["language" := Str(currentLanguage)]), layout, save)
      ensures Settled()
    {
      SettledLanguage(cfg, currentLanguage);
      cfg := cfg["language" := Str(currentLanguage)];
      SaveReporting(save);
    }

    /** The first part of set_language: the requested code if supported,
      else FALLBACK_LANG; when its catalog is empty, FALLBACK_LANG's. The
      display maps are left for RefreshLanguageMaps. */
    method ActivateLanguage(code: string)
      requires availableLanguages == AvailableLanguages
      modifies this
      ensures var lang := ResolvedLanguage(fs, layout, code);
        State() == old(State()).(currentLanguage := lang, translations := LoadLanguageFile(fs, layout, lang),
                                 catalogReads := old(catalogReads) + CatalogLoads(fs, layout, code))
    {
      var normalized := if code in availableLanguages then code else FallbackLang;
      var loaded := LoadLanguageFile(fs, layout, normalized);
      catalogReads := catalogReads + [normalized];
      if loaded == map[] {
        normalized := FallbackLang;
        loaded := LoadLanguageFile(fs, layout, normalized);
        catalogReads := catalogReads + [normalized];
      }
      currentLanguage := normalized;
      translations := loaded;
    }

    /** on_language_selected(name): switches to the code the name stands
      for, persisting it, unless the name is unknown or names the active
      language, when nothing changes. */
    method OnLanguageSelected(displayName: string, save: IoResult, root: LauncherRoot?)
      requires Valid() && Settled()
      modifies this, root, if root == null then null else root.sidebar
      ensures var code := if displayName in old(displayLookup) then old(displayLookup[displayName]) else "";
        (code == "" || code == old(currentLanguage)) ==>
          && State() == old(State())
          && (root != null ==> root.View() == old(root.View()))
          && (root != null && root.sidebar != null ==> root.sidebar.View() == old(root.sidebar.View()))
      ensures var code := if displayName in old(displayLookup) then old(displayLookup[displayName]) else "";
        (code != "" && code != old(currentLanguage)) ==>
          && State() == LanguageSet(old(State()), layout, code, true, save)
          && (root != null ==>
                root.View() == old(root.View()).(canPlay := CanPlay(fs, root.gameDir), statusText := StatusText(fs, Some(Loc()), root.gameDir)))
          && (root != null && root.sidebar != null ==>
                root.sidebar.View() == old(root.sidebar.View()).(buttons := Relabelled(old(root.sidebar.buttons), Loc())))
      ensures Valid() && Settled()
    {
      var code := if displayName in displayLookup then displayLookup[displayName] else "";
      if code == "" || code == currentLanguage {
        return;
      }
      SetLanguage(code, true, save, root);
    }

    /** on_file_chosen(path): an empty choice changes nothing; otherwise the
      chosen directory (a chosen file's parent) becomes the game directory
      and the initial dialog directory, is saved, and the root refreshes. */
    method OnFileChosen(picked: string, save: IoResult, root: LauncherRoot)
      requires Valid() && Settled()
      modifies this, root, root.sidebar
      ensures picked == "" ==>
        && State() == old(State()) && root.View() == old(root.View())
        && (root.sidebar != null ==> root.sidebar.View() == old(root.sidebar.View()))
      ensures picked != "" ==> var dir := ToString(ChosenDir(old(fs), picked));
        && State() == AfterReportedSave(old(State()).(cfg := old(cfg)["game_dir" := Str(dir)], initialDir := dir), layout, save)
        && root.View() == old(root.View()).(gameDir := dir, canPlay := CanPlay(fs, dir), statusText := StatusText(fs, Some(Loc()), dir))
        && (root.sidebar != null ==> root.sidebar.View() == old(root.sidebar.View()).(buttons := Relabelled(old(root.sidebar.buttons), Loc())))
      ensures Valid() && Settled()
    {
      if picked == "" {
        return;
      }
      var selected := Parse(picked);
      if selected in fs.files {
        selected := Parent(selected);
      }
      assert selected == ChosenDir(fs, picked);
      RecordGameDir(ToString(selected), save);
      ShowGameDir(root, ToString(selected));
    }

    /** The end of on_file_chosen: the root takes the directory and applies
      the translations, refreshing its play state, status line and sidebar
      labels. */
    method ShowGameDir(root: LauncherRoot, dir: string)
      modifies root, root.sidebar
      ensures root.View() == old(root.View()).(gameDir := dir, canPlay := CanPlay(fs, dir), statusText := StatusText(fs, Some(Loc()), dir))
      ensures root.sidebar != null ==> root.sidebar.View() == old(root.sidebar.View()).(buttons := Relabelled(old(root.sidebar.buttons), Loc()))
    {
      root.gameDir := dir;
      root.ApplyTranslations(fs, Some(Loc()));
    }

    /** The chosen game directory becomes the game_dir setting and the
      dialog's initial directory, and the configuration is saved. */
    method RecordGameDir(dir: string, save: IoResult)
      requires Settled()
      modifies this
      ensures State() == AfterReportedSave(old(State()).(cfg := old(cfg)["game_dir" := Str(dir)], initialDir := dir), layout, save)
      ensures Settled()
    {
      initialDir := dir;
      SettledSet(cfg, currentLanguage, "game_dir", Str(dir));
      cfg := cfg["game_dir" := Str(dir)];
      SaveReporting(save);
    }

    /** _on_window_resize: stores the new size and saves silently. */
    method OnWindowResize(width: int, height: int, save: IoResult)
      requires Valid() && Settled()
      modifies this
      ensures State() == AfterSave(old(State()).(cfg := old(cfg)["window_size" := IntPair(width, height)]), layout, save)
      ensures Valid() && Settled()
    {
      SettledSet(cfg, currentLanguage, "window_size", IntPair(width, height));
      cfg := cfg["window_size" := IntPair(width, height)];
      SaveSilently(save);
    }

    /** _on_window_move: stores the first two event arguments as the
      position, or the window's own left/top when fewer are given, and saves
      silently. */
    method OnWindowMove(args: seq<int>, windowLeft: int, windowTop: int, save: IoResult)
      requires Valid() && Settled()
      modifies this
      ensures var position := if |args| >= 2 then IntPair(args[0], args[1]) else IntPair(windowLeft, windowTop);
        State() == AfterSave(old(State()).(cfg := old(cfg)["window_position" := position]), layout, save)
      ensures Valid() && Settled()
    {
      var x, y := windowLeft, windowTop;
      if |args| >= 2 {
        x, y := args[0], args[1];
      }
      SettledSet(cfg, currentLanguage, "window_position", IntPair(x, y));
      cfg := cfg["window_position" := IntPair(x, y)];
      SaveSilently(save);
    }

    /** select_background with the dialog's answer `picked`: deletes the old
      background.* files (those in stuck refuse), copies the picked image to
      BackgroundDest, and on success records it in the configuration,
      remembers its directory and saves silently; a failed copy opens the
      save-error popup with copyError. The copy fails when the picked file
      is gone, is the destination itself, or the operating system refuses
      (copyOk false). */
    method SelectBackground(picked: string, stuck: set<Path>, copyOk: bool, copyError: string, save: IoResult)
      requires Valid() && Settled()
      modifies this
      ensures picked == "" ==> State() == old(State())
      ensures picked != "" ==>
        var src := Parse(picked);
        var dest := BackgroundDest(layout, src);
        var cleared := ClearedForBackground(old(fs), layout, stuck);
        var target := CopyTarget(cleared, src, dest);
        var copied := copyOk && src in cleared.files && src != target;
        && (copied ==>
              State() == AfterSave(old(State()).(fs := Copy(cleared, src, target),
                                                 cfg := old(cfg)["background_image" := Str(ToString(dest))],
                                                 initialDir := ToString(Parent(src))), layout, save))
        && (!copied ==>
              State() == old(State()).(fs := cleared, notices := old(notices) + [SaveErrorNotice(Loc(), copyError)]))
      ensures Valid() && Settled()
    {
      if picked == "" {
        return;
      }
      var src := Parse(picked);
      var dest := BackgroundDest(layout, src);
      ClearBackgrounds(stuck);
      var target := CopyTarget(fs, src, dest);
      if copyOk && src in fs.files && src != target {
        StoreBackground(src, dest, target, save);
      } else {
        ShowSaveError(copyError);
      }
    }

    /** select_background's mkdir and deletion of the old background.* files. */
    method ClearBackgrounds(stuck: set<Path>)
      modifies this
      ensures State() == old(State()).(fs := ClearedForBackground(old(fs), layout, stuck))
    {
      fs := ClearedForBackground(fs, layout, stuck);
    }

    /** select_background after a successful copy of src to target: the
      configuration records dest, the dialog starts in src's directory next
      time, and the configuration is saved silently. */
    method StoreBackground(src: Path, dest: Path, target: Path, save: IoResult)
      requires Settled()
      modifies this
      ensures State() == AfterSave(old(State()).(fs := Copy(old(fs), src, target),
                                                 cfg := old(cfg)["background_image" := Str(ToString(dest))],
                                                 initialDir := ToString(Parent(src))), layout, save)
      ensures Exists(fs, target)
      ensures Settled()
    {
      fs := Copy(fs, src, target);
      SaveKeeps(fs, ConfigFile(layout), cfg["background_image" := Str(ToString(dest))], save, target);
      SettledSet(cfg, currentLanguage, "background_image", Str(ToString(dest)));
      cfg := cfg["background_image" := Str(ToString(dest))];
      initialDir := ToString(Parent(src));
      SaveSilently(save);
    }
  }
}
