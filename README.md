# Wuwa Launcher core, modelled in Dafny

The launcher (`launcher.py`, a Kivy application for Wuthering Waves) keeps its
settings in `config.json` next to the application. At start-up it creates its
data directories, loads the configuration from the primary file or a bundled
fallback, migrates the legacy `game_path` key to `game_dir`, picks the
interface language, fills in any missing settings and writes the file back
when something changed. After that, a few handlers change the configuration
and save it:

- the game-directory chooser;
- window resize and move;
- the background picker;
- the language selector.

Messages come from two JSON catalogs. The active language is looked up first,
then English, then the key itself, and `{name}` placeholders are filled in. The
window shows a background image, chosen in order of precedence:

1. the configured image;
2. the first `background.*` in the user's asset directory;
3. the first bundled one.

The sidebar expands and collapses on hover and selects the content screen.

The model has these modules:

- `Text`: `str.find`/`rfind`, `split`/`join`, ASCII `lower`, and Python's string order.
- `Paths`: POSIX `pathlib` paths, with parse and print, `name`, `suffix`, `parent` and `/`.
- `JsonValues`: decoded JSON values, Python truthiness and `dict.get`.
- `Disk`: the file system as the launcher observes it, the outcome of each I/O call, and the directory layout. Both the outcome and the layout are parameters.
- `ConfigStore`: `load_config`, the `game_path` migration and the default-filling step of `__init__`.
- `Template`: `str.format` restricted to `{name}` fields, with escaped braces.
- `Localization`: the lookup cascade, `translate`, `set_language`'s language choice and the display-name maps.
- `Background`: `background_path` and the destination name `select_background` uses.
- `Hover`: `HoverBehavior._on_mouse_pos` as an edge detector.
- `Navigation`: the classes `Sidebar` and `LauncherRoot`, with `can_play` and `status_text`.
- `Launcher`: the `WuwaLauncherApp` class. `Boot` describes on values what `__init__` leaves behind; `Startup` computes it step by step; the handlers are methods that change the object's fields.

## Model

| member | source | states |
|---|---|---|
| Text.LastIndexOf | launcher.py:587 | The index of the last occurrence of the character, or -1 exactly when the character is absent. No later position holds the character. |
| Text.IndexOf | launcher.py:586 | The index of the first occurrence of the character, or -1 exactly when the character is absent. No earlier position holds the character. |
| Text.Split | launcher.py:586 | Splitting yields at least one piece, and no piece contains the separator. |
| Text.SplitJoin | launcher.py:586-588 | Splitting what join glued together gives the pieces back, provided they are free of the separator. |
| Text.Lower | launcher.py:801 | Lower-casing keeps the length and folds each character on its own, so no ASCII capital is left. Only ASCII letters are folded (see Left out). |
| Text.LowerChar | launcher.py:801 | An ASCII capital becomes the letter 32 code points above it, its lower-case form. Every other character is unchanged, and the result is never an ASCII capital. |
| Text.BelowIrreflexive | launcher.py:850 | No string sorts before itself. |
| Text.BelowTransitive | launcher.py:850 | String order is transitive. |
| Text.BelowTotal | launcher.py:850 | Of two different strings, one sorts before the other. |
| Text.Least | launcher.py:850-852 | The first element of `sorted` is in the set and sorts before every other element. |
| Paths.Keep | launcher.py:586 | Keeping the components pathlib keeps yields only good components and never more than it was given. |
| Paths.KeepGood | launcher.py:586 | Components that are already good are all kept. |
| Paths.Parse | launcher.py:586 | A parsed path is well formed, and it is absolute exactly when the text starts with a slash. Any number of leading slashes gives the root "/" (see Left out). |
| Paths.ToString | launcher.py:588 | `str(path)`: the root, then the components joined with "/"; "." for the empty relative path. No contract of its own; `ParseToString` is its round trip with `Parse`. |
| Paths.ParseToString | launcher.py:588 | Parsing a printed well-formed path gives the same path back. This is the round trip that `str(game_dir)` followed by a later `Path(...)` relies on. |
| Paths.ParseRoot | launcher.py:845 | "/" parses to the bare root. |
| Paths.Suffix | launcher.py:587 | The suffix is empty exactly when no dot in the last component sits at index 0 < i < len-1 with no later dot. Otherwise it is a dot followed by dot-free text that ends the name. |
| Paths.Name | launcher.py:801 | `path.name`: the last component, "" for a bare root. No contract of its own; `Child` and `ParentOfChild` state how it meets `/` and `parent`. |
| Paths.Parent | launcher.py:587 | The parent of a non-root path, extended by the path's name, is the path again. A bare root is its own parent. Well-formedness is kept. |
| Paths.Concat | launcher.py:846-847 | Joining onto a base keeps well-formedness, and an absolute right operand replaces the base. |
| Paths.Child | launcher.py:801 | Joining a name onto a base gives a path with that name, absolute like its base. |
| Paths.ParentOfChild | launcher.py:723 | The parent of base/name is base. |
| Paths.ChildWellFormed | launcher.py:801 | Appending a proper component keeps a path well formed. |
| Disk.ReadConfig | launcher.py:272-277 | A file that decodes exists. |
| Disk.WriteConfig | launcher.py:286 | After a write the file decodes to the document written. No other file's content changes, nothing disappears, and no directory is created. |
| Disk.SaveConfig | launcher.py:280-286 | A completed save leaves the document readable at the path. A failure before the file is opened leaves the file system unchanged; one after `write_text` truncated the file leaves it present and undecodable. No other file reads differently. |
| Disk.Clobbered | launcher.py:286 | A write that raised after opening the file leaves it present and undecodable. Other files read as before, nothing disappears and no directory is created. |
| Disk.SaveKeeps | launcher.py:280-286 | Saving never removes a file or directory. |
| Disk.LoadLanguageFile | launcher.py:659-666 | A missing catalog file, or one that does not decode, loads as the empty catalog; a file that decodes loads as its decoded catalog. |
| Disk.BackgroundEntries | launcher.py:850 | `glob("background.*")` yields exactly the existing entries of the directory whose names match the pattern. |
| Disk.IsBackgroundName | launcher.py:803 | The names the pattern "background.*" matches: those starting with "background.". No contract of its own; `BackgroundEntries` and `BackgroundDestSuffix` use it. |
| ConfigStore.FallbackCandidates | launcher.py:268-270 | Each fallback candidate is one of the listed fallbacks, differs from the primary and is marked `needs_save`. |
| ConfigStore.Candidates | launcher.py:267-270 | The primary comes first with `needs_save` false; every later candidate differs from it and is marked `needs_save`. |
| ConfigStore.FirstReadable | launcher.py:271-277 | The position found is the first candidate that exists and decodes; every earlier one fails. |
| ConfigStore.LoadConfig | launcher.py:262-279 | A decodable primary wins with `needs_save` false. `needs_save` is false only when the primary supplied the data, or when the primary exists but nothing decodes. |
| ConfigStore.LoadConfigFallback | launcher.py:268-278 | With the primary unusable, the first decodable fallback that differs from the primary is returned, in listed order, with `needs_save` true. |
| ConfigStore.FirstFallback | launcher.py:268-277 | The candidate search finds the first decodable fallback that differs from the primary. |
| ConfigStore.LoadConfigNothing | launcher.py:279 | When nothing decodes, the result is `({}, not primary_exists)`. So a corrupt primary that exists gives `needs_save` false. |
| ConfigStore.LoadAfterSave | launcher.py:262-286 | Loading right after a successful save returns the saved document from the primary, with `needs_save` false. |
| ConfigStore.UnfrozenSingleCandidate | launcher.py:262-270 | When the bundle directory is the application directory, the fallback equals the primary and is skipped. |
| ConfigStore.LegacyGameDir | launcher.py:586-588 | The `game_dir` derived from a legacy `game_path`: its parent when the last component has a suffix, the path itself otherwise, printed. No contract of its own; `LegacyExecutableInDirectory` and `LegacyDirectoryKept` state both cases. |
| ConfigStore.LegacyExecutableInDirectory | launcher.py:586-588 | A legacy path to a file with a suffix migrates to the file's directory. |
| ConfigStore.LegacyDirectoryKept | launcher.py:586-588 | A legacy path whose last component has no suffix migrates unchanged. |
| ConfigStore.SuffixOfExecutable | launcher.py:587 | "Game.exe" has the suffix ".exe". |
| ConfigStore.SuffixTrailingDot | launcher.py:587 | "Game." has no suffix. |
| ConfigStore.SuffixLeadingDot | launcher.py:587 | ".exe" has no suffix. |
| ConfigStore.Migrate | launcher.py:583-589 | `game_path` is always removed. `converted` holds exactly when `game_path` was present and not null. `game_dir` is added only for a truthy legacy value with no `game_dir`, and is then derived from it. Every other key is unchanged. |
| ConfigStore.MigrateIdempotent | launcher.py:583-589 | Migrating a migrated document changes nothing and converts nothing. |
| ConfigStore.SettledSet | launcher.py:827-838 | Overwriting one of the settings a handler writes keeps the configuration settled. |
| ConfigStore.SettledLanguage | launcher.py:689 | Storing the language in a complete configuration settles it on that language. |
| ConfigStore.FillDefaults | launcher.py:600-615 | All five settings are present and the language is the active one. Missing settings get their defaults: "" for `game_dir` and `background_image`, and the window's size and position. Other keys are kept. `defaults_applied` holds exactly when a key was missing or the language differed. |
| ConfigStore.FillDefaultsChanges | launcher.py:600-616 | `defaults_applied` is raised exactly when filling changed the document. |
| ConfigStore.FillDefaultsIdempotent | launcher.py:600-615 | Filling a filled document applies nothing. |
| ConfigStore.EmptyDocumentGetsDefaults | launcher.py:600-616 | An empty configuration comes out with exactly the five defaults and a write-back requested. |
| Template.ParseRender | launcher.py:703 | Parsing the rendered text of well-named pieces gives the pieces back. |
| Template.ParseTemplate | launcher.py:703 | How `str.format` reads a template into literal characters and `{name}` fields, with "{{" and "}}" as escaped braces; None for a template it rejects. No contract of its own; `ParseRender` makes `Render` its inverse. |
| Template.Render | launcher.py:703 | The template text of a sequence of pieces, doubling literal braces. No contract of its own; `ParseRender` is the round trip. |
| Template.Substitute | launcher.py:703 | Filling parsed pieces with the parameters. No contract of its own; `SubstituteDefined` states when it succeeds and `OneField` what it yields. |
| Template.SubstituteDefined | launcher.py:703-705 | Filling fails exactly when some field has no parameter. |
| Template.Format | launcher.py:703-705 | `format` succeeds exactly when the template parses and every field it names has a parameter. |
| Template.PlainFormat | launcher.py:703 | Brace-free text formats to itself, whatever the parameters. |
| Template.OneField | launcher.py:703-705 | "pre{name}post" formats to pre + value + post when the parameter is given, and fails otherwise. |
| Template.FormatParsed | launcher.py:703 | Once parsed, formatting is filling the parsed pieces. |
| Localization.Lookup | launcher.py:701 | A usable active entry wins. The result is always the key itself or an entry stored under the key in one of the two catalogs, and never empty for a non-empty key. |
| Localization.EmptyEntryIsMissing | launcher.py:701 | An empty active entry behaves exactly as if the key were missing from the active catalog. |
| Localization.LookupFallsBack | launcher.py:701 | Without a usable active entry, the lookup is the fallback catalog's alone. |
| Localization.Translate | launcher.py:700-705 | When the chosen template parses and every field it names has a parameter, the result is the template filled with them. Otherwise it is the chosen template unchanged. |
| Localization.TranslateUnknownKey | launcher.py:701-705 | A brace-free key found in neither catalog translates to itself. |
| Localization.TranslateActiveFirst | launcher.py:701-703 | A usable, brace-free active entry is returned as is, whatever the fallback holds. |
| Localization.TranslatePlaceholder | launcher.py:700-705 | A one-placeholder template is filled when the parameter is given and returned raw when it is not. |
| Localization.Normalize | launcher.py:680 | The first choice is supported, and it is the code itself or `FALLBACK_LANG`. |
| Localization.ResolvedLanguage | launcher.py:679-685 | The language left active is supported. It equals the requested code exactly when that code is supported with a non-empty catalog, or is `FALLBACK_LANG`. Otherwise it is `FALLBACK_LANG`. |
| Localization.CatalogLoads | launcher.py:680-684 | One or two catalogs are read, the normalized code first. A second read happens exactly when the first catalog is empty, and it is `FALLBACK_LANG`. The last read is the active language. |
| Localization.DisplayNames | launcher.py:671-672 | One label per code. |
| Localization.DisplayName | launcher.py:672 | A code's label: `translate("settings.language.<code>")`. No contract of its own; `DisplayMapGives` ties it to the display map. |
| Localization.DisplayMapOf | launcher.py:668-673 | The display map the loop builds, code to label, later codes overwriting earlier ones. No contract of its own; `DisplayMapOfFresh` states its contents. |
| Localization.LookupOf | launcher.py:668-674 | The reverse lookup the loop builds, label to code, later labels overwriting earlier ones. No contract of its own; `LookupOfFresh` states its contents. |
| Localization.DisplayMapOfFresh | launcher.py:668-673 | The display map holds exactly the codes, each with the label at its last position. |
| Localization.LookupOfFresh | launcher.py:668-674 | The reverse lookup holds exactly the labels, each mapped to the code at its last position, so the later code wins on a clash. |
| Localization.DisplayMapGives | launcher.py:668-673 | A code has a display entry exactly when it is supported, and the entry is `translate("settings.language.<code>")`. |
| Localization.LookupInverts | launcher.py:668-674 | With distinct codes and distinct labels, the lookup and the display map are inverse to each other. |
| Localization.LanguageMapsInvert | launcher.py:668-677 | In the launcher's language state, with distinct labels, each display name maps back to its code and each code's name maps back to the code. |
| Background.FirstBackground | launcher.py:850-854 | None exactly when the directory has no `background.*` entry. Otherwise an existing entry of the directory, named `background.*`, that sorts before every other such entry. |
| Background.Configured | launcher.py:843-847 | Present exactly when a non-empty string is configured. An absolute setting is taken as it is; a relative one is `UI_ASSETS_DIR` followed by the setting's own components, with that directory's root. |
| Background.BackgroundPath | launcher.py:842-854 | An existing configured image wins. Otherwise the first user `background.*`, else the first bundled one. Any result exists. The configuration is a value that the function does not change. |
| Background.NoBackground | launcher.py:842-854 | No background is shown exactly when no configured image exists and neither directory holds a `background.*` entry. |
| Background.UserAssetsFirst | launcher.py:850-852 | With no configured image, a user `background.*` beats every bundled one. |
| Background.BackgroundDest | launcher.py:801 | The destination lies in `UI_ASSETS_DIR` and is named "background" plus the lower-cased suffix. |
| Background.BackgroundDestSuffix | launcher.py:801-803 | The destination keeps the picked file's suffix, lower-cased. It matches `background.*` exactly when the picked file has a suffix. |
| Background.SelectedBackgroundWins | launcher.py:842-849 | After `select_background` stored the copy's path and the copy exists, `background_path()` returns exactly that copy. |
| Background.BackgroundDestWellFormed | launcher.py:801 | The destination of a well-formed picked path is well formed. |
| Hover.HoverStep | launcher.py:309-319 | A detached widget ignores the mouse. Otherwise `hovered` follows `inside`, and an event fires exactly when it changes: enter when it becomes true, leave when it becomes false. |
| Hover.RunAlternates | launcher.py:309-319 | Over any run of samples, enter and leave strictly alternate. The first event changes the start state, and the final state is the one the last event announced. |
| Hover.DetachedIsSilent | launcher.py:310-311 | Samples taken while detached fire nothing and change nothing. |
| Navigation.HoverTargets | launcher.py:366-368 | Hovering targets the expanded width, full opacity and the label width max(0, expanded - collapsed). Leaving targets (collapsed, 0, 0). |
| Navigation.Sidebar.constructor | launcher.py:343-356 | A new sidebar is collapsed, unhovered and showing "home", with no callback, buttons or animation; every field is given. |
| Navigation.Sidebar.OnKvPost | launcher.py:358-362 | Back to the collapsed look with labels hidden; every other field is unchanged. |
| Navigation.Sidebar.OnHovered | launcher.py:364-376 | `show_labels` follows the hover value. Exactly one animation is in flight afterwards, replacing any previous one, with the hover targets, 0.25 s and out_quad. The animated values and every other field are unchanged. |
| Navigation.Sidebar.OnMousePos | launcher.py:309-319 | The new hover state and event are those of `HoverStep`. A change sets `hovered` and restarts the animation towards the new state; no change leaves the whole sidebar as it was. |
| Navigation.Sidebar.Populate | launcher.py:378-399 | The callback is registered. Without a container the buttons are kept; with one they become `MenuButtons`: one per entry, in order, with its icon, key, screen and label. Nothing else changes. |
| Navigation.Sidebar.UpdateLabels | launcher.py:401-406 | With an application, the buttons become `Relabelled`: each label re-translated from its key. Without one, nothing changes. |
| Navigation.Sidebar.Select | launcher.py:408-411 | The screen becomes active and nothing else changes. The callback is invoked with it exactly when `dispatch` is set and a callback exists. |
| Navigation.ButtonText | launcher.py:393-396 | A button's label: the translated key with an application, the key itself without one. No contract of its own; `Populate` uses it. |
| Navigation.RelabelMenuButtons | launcher.py:378-406 | Re-translating freshly populated buttons with the same catalogs changes none of them. |
| Navigation.RelabelLastWins | launcher.py:401-406 | Labels depend only on the last catalogs applied; relabelling keeps every button's icon, key, screen and position. |
| Navigation.CanPlay | launcher.py:440-442 | `can_play`: a game directory is set, exists and holds "Wuthering Waves.exe". No contract of its own; `ExecutableDirectoryCanPlay` and `ChoosingGameEnablesPlay` are stated with it. |
| Navigation.StatusText | launcher.py:444-453 | `status_text`. No contract of its own; `PlayableShowsDirectory` and `StatusAgreesWithoutCatalog` state what it shows. |
| Navigation.PlayableShowsDirectory | launcher.py:440-446 | Whenever the game can be started, the status line names its directory. |
| Navigation.StatusAgreesWithoutCatalog | launcher.py:444-453 | With the English templates, the translated status line equals the plain English one whenever the directory is unset or exists. |
| Navigation.LauncherRoot.constructor | launcher.py:414-428 | A new root shows "home", has no game directory, cannot play and reads "Game directory: not set"; every field is given. |
| Navigation.LauncherRoot.RefreshState | launcher.py:438-456 | `can_play` and `status_text` are recomputed from `game_dir`; every other field is unchanged. |
| Navigation.LauncherRoot.ApplyTranslations | launcher.py:504-532 | With an application, the root's state is refreshed and the sidebar's buttons relabelled, with nothing else changed in either. Without one, neither changes. |
| Navigation.LauncherRoot.SwitchTo | launcher.py:564-571 | `current_screen` and the sidebar's active screen become the screen. The manager shows it only when it knows the name. The sidebar's callback is not invoked, and no other field of either object changes. |
| Navigation.LauncherRoot.OnButtonRelease | launcher.py:338-340 | Releasing a menu button selects its screen in the sidebar and changes nothing else there. The root switches to it only when the sidebar's callback is registered, and otherwise stays as it was. |
| Navigation.LauncherRoot.OnKvPost | launcher.py:430-436 | The sidebar gets the callback, the current screen and the menu buttons, labelled in the catalogs in force (with no container, its old buttons relabelled). The root's state is refreshed with the translations, and its screens and directory are kept. |
| Navigation.ExecutableDirectoryCanPlay | launcher.py:440-443 | A directory holding "Wuthering Waves.exe", printed and parsed back, can be played. |
| Launcher.SaveErrorNotice | launcher.py:693-696 | The save-error popup carries exactly the error text as its one parameter. |
| Launcher.MakeDirs | launcher.py:578-581 | The four directories exist afterwards. Nothing that existed disappears, and no configuration or catalog file reads differently. |
| Launcher.InitialLanguage | launcher.py:591-593 | A supported configured language is kept; anything else becomes `DEFAULT_LANG` ("pl_PL", distinct from `FALLBACK_LANG`). |
| Launcher.ChosenDir | launcher.py:721-723 | A chosen file stands for its parent directory; a chosen directory for itself. The result is well formed. |
| Launcher.ChoosingGameEnablesPlay | launcher.py:713-735 | Choosing either the game directory or the executable in it records that directory, and the game can then be started, whatever the save outcome. |
| Launcher.ClearedForBackground | launcher.py:802-807 | The asset directory exists. Only `background.*` files in it are removed, and every other file is kept. The only `background.*` files left are those whose unlink failed. |
| Launcher.CopyTarget | launcher.py:809 | Where `shutil.copy2` writes: into `dest`, or inside it under the source's name when `dest` is a directory. No contract of its own; `SelectBackground` states the copy with it. |
| Launcher.Copy | launcher.py:809 | After a completed copy the target exists with the source's content. |
| Launcher.ReselectingCurrentBackgroundLosesIt | launcher.py:801-809 | Picking the stored background itself deletes it before the copy, unless its unlink fails, so the copy has no source. |
| Launcher.BuildLanguageMaps | launcher.py:668-674 | The loop leaves exactly the display map and reverse lookup of the codes and their labels. |
| Launcher.Boot | launcher.py:576-620 | The state `__init__` leaves behind, on values. No contract of its own; the constructor, `Startup`, `BootWritesBack` and `BootIgnoresSaveOutcome` state what it holds. |
| Launcher.Startup | launcher.py:576-620 | Computes `Boot`. The result is in the language state and its configuration is settled: all five settings are present, the legacy key is gone, and the language is the active one. |
| Launcher.BootWritesBack | launcher.py:583-620 | Start-up saves at most once, and it saves exactly when `game_path` was present, the data did not come from the primary, or filling changed the document. Without a save, or when it fails before opening the file, the disk is as the directories left it. A completed save leaves the final configuration on disk; one that fails after truncating leaves `config.json` present and undecodable. |
| Launcher.BootIgnoresSaveOutcome | launcher.py:616-620 | A failed start-up save changes nothing in memory. |
| Launcher.ClobberedSaveLosesSettings | launcher.py:262-286 | After a save that truncated `config.json`, the next load either comes from a fallback (and asks to save) or starts from an empty configuration. |
| Launcher.LauncherApp.constructor | launcher.py:576-620 | `__init__` leaves exactly the `Boot` state. Both display maps match the active language, and the configuration is settled. |
| Launcher.LauncherApp.SaveSilently | launcher.py:821-825 | One save attempt of the current configuration, recorded; a failure is ignored; every other field is unchanged. |
| Launcher.LauncherApp.SaveReporting | launcher.py:726-732 | One save attempt; a failure opens the save-error popup with its message; every other field is unchanged. |
| Launcher.LauncherApp.ShowSaveError | launcher.py:815-819 | The save-error popup opens with the given text; every other field is unchanged. |
| Launcher.LauncherApp.RefreshLanguageMaps | launcher.py:668-674 | Both maps are rebuilt from the catalogs in force; every other field is unchanged. |
| Launcher.LauncherApp.LanguageDisplayFor | launcher.py:676-677 | A supported code's translated name, and the code itself otherwise. |
| Launcher.LauncherApp.SetLanguage | launcher.py:679-698 | The whole new state is `LanguageSet`: the resolved language and its catalog active after at most two reads, the maps rebuilt, and with `persist` the language stored and saved, a failure reported; without it the configuration, disk and popups are unchanged. The root's play state and status line are refreshed, its screens and directory kept, and its sidebar's buttons relabelled with nothing else changed there. |
| Launcher.LauncherApp.ApplyLanguage | launcher.py:679-696 | `set_language`'s effect on the application: the whole new state is `LanguageSet`, the language state holds, and with `persist` the configuration is settled. |
| Launcher.LauncherApp.SwitchLanguage | launcher.py:679-687 | `set_language(code, persist=False)` with no root: the whole new state is `Switched` (language, catalog, reads and maps), and the language state holds. |
| Launcher.LauncherApp.PersistLanguage | launcher.py:688-696 | Stores the active language, saves and reports a failure; every other field is unchanged and the configuration stays settled. |
| Launcher.LauncherApp.ActivateLanguage | launcher.py:680-686 | The resolved language and its catalog become active, after the recorded catalog reads. The display maps and every other field are unchanged. |
| Launcher.LauncherApp.OnLanguageSelected | launcher.py:707-711 | An unknown display name, or the active language's name, changes nothing in the application, the root or its sidebar. Otherwise everything changes as `SetLanguage` with `persist` does. |
| Launcher.LauncherApp.OnFileChosen | launcher.py:713-735 | An empty choice changes nothing anywhere. Otherwise the chosen directory becomes `game_dir` and the initial dialog directory, is saved (a failure opens the popup) and nothing else in the application changes. It becomes the root's directory with play state and status refreshed, and the sidebar's buttons are relabelled. |
| Launcher.LauncherApp.ShowGameDir | launcher.py:733-735 | The root takes the chosen directory, its play state and status line are recomputed for it, and its sidebar's buttons are relabelled; nothing else in either object changes. |
| Launcher.LauncherApp.RecordGameDir | launcher.py:724-732 | Stores the directory in the configuration and as the initial dialog directory, then saves and reports a failure; every other field is unchanged. |
| Launcher.LauncherApp.OnWindowResize | launcher.py:827-829 | Stores the new size and saves silently; every other field is unchanged. |
| Launcher.LauncherApp.OnWindowMove | launcher.py:831-838 | Stores the first two event arguments as the position, or the window's own when fewer are given, and saves silently; every other field is unchanged. |
| Launcher.LauncherApp.SelectBackground | launcher.py:796-819 | An empty pick changes nothing. Otherwise old backgrounds are deleted first (except those whose unlink fails). A successful copy records the destination and the source's directory and saves; a failed copy keeps the deletions and opens the popup. Every other field is unchanged. |
| Launcher.LauncherApp.ClearBackgrounds | launcher.py:802-807 | The file system becomes the cleared one; every other field is unchanged. |
| Launcher.LauncherApp.StoreBackground | launcher.py:809-812 | After the copy, the destination is recorded, the source's directory remembered and the configuration saved; every other field is unchanged. The copy exists and the configuration stays settled. |

## Left out

- Kivy: the widget tree, the kv layout string, `dp()` metrics, `Window` bindings, canvas and texture loading in `update_background`, and the `_sync_*` label helpers are not modelled. Popups are a log of `Notice` values: the catalogs in force, a title key, a message key and parameters.
- The Kivy `Animation` tween (easing curve, per-frame interpolation, starting from the current value on cancel) is library behaviour and floating point. Only the one in-flight animation record and its targets are kept.
- JSON decoding, file reads and writes, `mkdir`, `shutil.copy2`, `unlink` and `glob` are OS calls. The file system is a value. Each write or copy takes its outcome (`IoResult`, or a flag and an error text) as a parameter. In the model `mkdir` always succeeds.
- The file system records decoded contents only as JSON objects for configuration files and as string tables for catalogs. A `config.json` holding another JSON value (the launcher would then fail on `.pop`) and a catalog holding non-string values cannot be expressed.
- A truthy non-string `game_path` or `background_image` makes `pathlib.Path` raise `TypeError`, which the launcher does not catch. `Migratable` and `PathLike` exclude such documents as preconditions rather than modelling the crash.
- Template.Format: only `{name}` fields and doubled braces. Format specs, conversions, attribute and index fields, and positional fields are not modelled. Where Python would accept them, the model reports failure, so `translate` returns the raw template.
- Numbers: JSON numbers are integers. Launcher.LauncherApp.OnWindowResize and OnWindowMove take integer arguments, so `int()` of a float and the exception that `_on_window_move` swallows are not modelled.
- Paths follow the POSIX flavour only. `expanduser` is the identity, and `sys.platform` checks are not modelled.
- `play` (`subprocess.Popen`), `open_directory_dialog` and `open_image_dialog` (tkinter) spawn processes or native dialogs. They are left out; their answer is the `picked` parameter of the handlers.
- `build`, `_prepare_initial_dir` and `on_stop` are not modelled; `initialDir` starts as "" after start-up.
- Launcher.LauncherApp.constructor: `__init__` calls `set_language` with no root. The model computes that step through `Startup` on values rather than by calling the method. Start-up reads the English catalog first, then `set_language`'s reads.
- `select_background` is not atomic: the deletions happen before the copy, and the model keeps them on a failed copy. `update_background` of the new image is not modelled.
- `is_file()` is modelled as membership in the file set. A path that names neither a file nor a directory is treated as a directory by `on_file_chosen`, as in the source.
- Paths.Parse: `PurePosixPath` keeps exactly two leading slashes as a root of its own, "//", distinct from "/". The model gives such text the root "/". A `game_path` or chosen directory starting with "//" therefore prints back with one slash, and `load_config`'s test that a fallback differs from the primary could differ on such paths.
- Text.Lower: only ASCII letters are folded. Python's `str.lower` folds every Unicode capital and can change the length (for example "İ" becomes two characters). This affects only the suffix of a picked background image.
- Disk.SaveConfig: the `mkdir` of the configuration's parent directory is not modelled. That directory is the application directory, which start-up creates.
- Launcher.LauncherApp.SelectBackground: a `copy2` that fails part-way may leave a partial destination file; the model leaves no destination. Which unlinks fail is the `stuck` parameter.
