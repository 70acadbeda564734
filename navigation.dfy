/** The sidebar (hover-driven expansion, menu buttons, the active screen)
    and the launcher's root widget state (the shown screen, whether the
    game can be started, the status line). */
module Navigation {
  import opened Paths
  import opened JsonValues
  import opened Disk
  import opened Localization
  import opened Hover
  import opened Template

  /** The values an animation moves the sidebar towards. */
  datatype Tween = Tween(width: real, labelWidth: real, opacity: real)

  /** One started Kivy animation: its targets, length in seconds and easing. */
  datatype Animation = Animation(target: Tween, duration: real, easing: string)

  /** on_hovered's targets: fully open with visible labels, or collapsed to
      the icon column with hidden labels. */
  function HoverTargets(expanded: real, collapsed: real, v: bool): (t: Tween)
    ensures v ==> t.width == expanded && t.opacity == 1.0 && t.labelWidth >= 0.0
    ensures v && expanded >= collapsed ==> t.width == collapsed + t.labelWidth
    ensures v && expanded < collapsed ==> t.labelWidth == 0.0
    ensures !v ==> t == Tween(collapsed, 0.0, 0.0)
  {
    if v then Tween(expanded, if expanded - collapsed > 0.0 then expanded - collapsed else 0.0, 1.0)
    else Tween(collapsed, 0.0, 0.0)
  }

  /** The animation on_hovered starts: a quarter second, out_quad easing. */
  function HoverAnimation(expanded: real, collapsed: real, v: bool): Animation
  {
    Animation(HoverTargets(expanded, collapsed, v), 0.25, "out_quad")
  }

  /** An entry of MENU_ENTRIES: icon text, label message key, screen name. */
  datatype MenuEntry = MenuEntry(icon: string, labelKey: string, screen: string)

  const MenuEntries: seq<MenuEntry> := [
    MenuEntry("H", "menu.home", "home"),
    MenuEntry("L", "menu.library", "library"),
    MenuEntry("S", "menu.store", "store"),
    MenuEntry("U", "menu.settings", "settings")
  ]

  /** A SidebarButton's state: what it shows and which screen it selects. */
  datatype SidebarButton = SidebarButton(icon: string, labelKey: string, screen: string, text: string)

  /** The label a button carries: the translated key, or the key itself when
      no application is running. */
  function ButtonText(loc: Option<Localizer>, key: string): string
  {
    if loc.Some? then Translate(loc.value, key, map[]) else key
  }

  /** A Sidebar's variable fields as one value. */
  datatype SidebarView = SidebarView(
    hovered: bool, showLabels: bool, width: real, labelWidth: real, labelsOpacity: real,
    activeScreen: string, animation: Option<Animation>, hasCallback: bool, buttons: seq<SidebarButton>)

  /** populate's buttons: one per entry, in order, labelled by ButtonText. */
  function MenuButtons(entries: seq<MenuEntry>, loc: Option<Localizer>): seq<SidebarButton>
  {
    seq(|entries|, i requires 0 <= i < |entries| =>
      SidebarButton(entries[i].icon, entries[i].labelKey, entries[i].screen, ButtonText(loc, entries[i].labelKey)))
  }

  /** update_labels' buttons: the same buttons, each label re-translated from its key. */
  function Relabelled(bs: seq<SidebarButton>, loc: Localizer): seq<SidebarButton>
  {
    seq(|bs|, i requires 0 <= i < |bs| => bs[i].(text := Translate(loc, bs[i].labelKey, map[])))
  }

  /** Re-translating the buttons populate has just built with the same
      catalogs changes none of them. */
  lemma RelabelMenuButtons(entries: seq<MenuEntry>, loc: Localizer)
    ensures Relabelled(MenuButtons(entries, Some(loc)), loc) == MenuButtons(entries, Some(loc))
  {
    var bs := MenuButtons(entries, Some(loc));
    assert forall i :: 0 <= i < |bs| ==> Relabelled(bs, loc)[i] == bs[i];
  }

  /** The labels depend only on the last catalogs applied: relabelling twice
      is relabelling once with the second. Icons, keys, screens and the
      order of the buttons never change. */
  lemma RelabelLastWins(bs: seq<SidebarButton>, first: Localizer, second: Localizer)
    ensures Relabelled(Relabelled(bs, first), second) == Relabelled(bs, second)
    ensures var r := Relabelled(bs, second);
      |r| == |bs| && forall i :: 0 <= i < |bs| ==>
        r[i].icon == bs[i].icon && r[i].labelKey == bs[i].labelKey && r[i].screen == bs[i].screen
  {
    assert forall i :: 0 <= i < |bs| ==> Relabelled(Relabelled(bs, first), second)[i] == Relabelled(bs, second)[i];
  }

  class Sidebar {
    const expandedWidth: real
    const collapsedWidth: real
    /** Whether the kv rules gave the sidebar its menu container. */
    const hasContainer: bool
    var hovered: bool
    var showLabels: bool
    var width: real
    var labelWidth: real
    var labelsOpacity: real
    var activeScreen: string
    /** The animation in flight; starting one cancels the previous one. */
    var animation: Option<Animation>
    /** Whether populate has registered the screen-switch callback. */
    var hasCallback: bool
    var buttons: seq<SidebarButton>

    /** The variable fields as one SidebarView value. */
    ghost function View(): SidebarView
      reads this
    {
      SidebarView(hovered, showLabels, width, labelWidth, labelsOpacity, activeScreen, animation, hasCallback, buttons)
    }

    constructor (expandedWidth: real, collapsedWidth: real, hasContainer: bool)
      ensures this.expandedWidth == expandedWidth && this.collapsedWidth == collapsedWidth
      ensures this.hasContainer == hasContainer
      ensures View() == SidebarView(false, false, collapsedWidth, 0.0, 0.0, "home", None, false, [])
    {
      this.expandedWidth := expandedWidth;
      this.collapsedWidth := collapsedWidth;
      this.hasContainer := hasContainer;
      hovered := false;
      showLabels := false;
      width := collapsedWidth;
      labelWidth := 0.0;
      labelsOpacity := 0.0;
      activeScreen := "home";
      animation := None;
      hasCallback := false;
      buttons := [];
    }

    /** on_kv_post: back to the collapsed look, labels hidden. */
    method OnKvPost()
      modifies this
      ensures View() == old(View()).(width := collapsedWidth, labelWidth := 0.0, labelsOpacity := 0.0, showLabels := false)
    {
      width := collapsedWidth;
      labelWidth := 0.0;
      labelsOpacity := 0.0;
      showLabels := false;
    }

    /** on_hovered(v): labels follow v at once, and the one running
      animation is replaced by one towards HoverTargets(v); the animated
      values themselves only move as the animation runs. */
    method OnHovered(v: bool)
      modifies this
      ensures View() == old(View()).(showLabels := v, animation := Some(HoverAnimation(expandedWidth, collapsedWidth, v)))
    {
      showLabels := v;
      animation := Some(HoverAnimation(expandedWidth, collapsedWidth, v));
    }

    /** _on_mouse_pos: one mouse sample; `hovered` changing triggers
      on_hovered, and the dispatched event is returned. */
    method OnMousePos(s: Sample) returns (event: Option<HoverEvent>)
      modifies this
      ensures Step(hovered, event) == HoverStep(old(hovered), s)
      ensures event.Some? ==> View() == old(View()).(hovered := s.inside, showLabels := s.inside,
                                                     animation := Some(HoverAnimation(expandedWidth, collapsedWidth, s.inside)))
      ensures event.None? ==> View() == old(View())
    {
      if !s.attached || hovered == s.inside {
        return None;
      }
      hovered := s.inside;
      OnHovered(s.inside);
      event := Some(if s.inside then Enter else Leave);
    }

    /** populate(entries, switch_to): registers the callback and, when the
      container exists, rebuilds one button per entry, in order. */
    method Populate(entries: seq<MenuEntry>, loc: Option<Localizer>)
      modifies this
      ensures View() == old(View()).(hasCallback := true, buttons := if hasContainer then MenuButtons(entries, loc) else old(buttons))
    {
      hasCallback := true;
      if !hasContainer {
        return;
      }
      var built := [];
      var i := 0;
      while i < |entries|
        invariant 0 <= i <= |entries|
        invariant built == MenuButtons(entries[..i], loc)
      {
        var e := entries[i];
        assert entries[..i + 1] == entries[..i] + [e];
        built := built + [SidebarButton(e.icon, e.labelKey, e.screen, ButtonText(loc, e.labelKey))];
        i := i + 1;
      }
      assert entries[..i] == entries;
      buttons := built;
    }

    /** update_labels: every button's label re-translated from its key; nothing
      happens when no application is running. */
    method UpdateLabels(loc: Option<Localizer>)
      modifies this
      ensures loc.None? ==> View() == old(View())
      ensures loc.Some? ==> View() == old(View()).(buttons := Relabelled(old(buttons), loc.value))
    {
      if loc.None? {
        return;
      }
      var relabelled := buttons;
      var i := 0;
      while i < |relabelled|
        invariant 0 <= i <= |relabelled| && |relabelled| == |buttons|
        invariant forall j :: 0 <= j < i ==>
          relabelled[j] == buttons[j].(text := Translate(loc.value, buttons[j].labelKey, map[]))
        invariant forall j :: i <= j < |relabelled| ==> relabelled[j] == buttons[j]
      {
        relabelled := relabelled[i := relabelled[i].(text := Translate(loc.value, relabelled[i].labelKey, map[]))];
        i := i + 1;
      }
      assert relabelled == Relabelled(buttons, loc.value);
      buttons := relabelled;
    }

    /** select(screen, dispatch): marks the screen active and hands it to the
      callback only when dispatching and a callback is registered. */
    method Select(screen: string, dispatch: bool) returns (notified: Option<string>)
      modifies this
      ensures View() == old(View()).(activeScreen := screen)
      ensures notified == if dispatch && hasCallback then Some(screen) else None
    {
      activeScreen := screen;
      notified := if dispatch && hasCallback then Some(screen) else None;
    }
  }

  /** The executable refresh_state looks for in the game directory. */
  const GameExecutable := "Wuthering Waves.exe"

  /** can_play: a game directory is set, exists, and holds the executable. */
  predicate CanPlay(fs: FileSystem, gameDir: string)
  {
    gameDir != "" && Exists(fs, Parse(gameDir)) && Exists(fs, Child(Parse(gameDir), GameExecutable))
  }

  /** status_text: translated when an application runs, plain English
      otherwise. With an application, a directory that does not exist reads
      as not set; without one, any set directory is shown. */
  function StatusText(fs: FileSystem, loc: Option<Localizer>, gameDir: string): string
  {
    if loc.Some? then
      if gameDir != "" && Exists(fs, Parse(gameDir)) then
        Translate(loc.value, "status.set", map["path" := ToString(Parse(gameDir))])
      else Translate(loc.value, "status.not_set", map[])
    else if gameDir != "" then "Game directory: " + ToString(Parse(gameDir))
    else "Game directory: not set"
  }

  /** Whenever the game can be started, the status line names its
      directory through the "status.set" message. */
  lemma PlayableShowsDirectory(fs: FileSystem, loc: Localizer, gameDir: string)
    requires CanPlay(fs, gameDir)
    ensures StatusText(fs, Some(loc), gameDir) == Translate(loc, "status.set", map["path" := ToString(Parse(gameDir))])
  {
  }

  /** With the English templates "Game directory: {path}" and
      "Game directory: not set", the translated status line agrees with the
      untranslated one, except for a set directory that does not exist. */
  lemma StatusAgreesWithoutCatalog(fs: FileSystem, loc: Localizer, gameDir: string)
    requires Lookup(loc, "status.set") == "Game directory: " + "{" + "path" + "}" + ""
    requires Lookup(loc, "status.not_set") == "Game directory: not set"
    requires gameDir == "" || Exists(fs, Parse(gameDir))
    ensures StatusText(fs, Some(loc), gameDir) == StatusText(fs, None, gameDir)
  {
    var pre := "Game directory: ";
    assert '{' !in pre && '}' !in pre;
    if gameDir != "" {
      var params := map["path" := ToString(Parse(gameDir))];
      TranslatePlaceholder(loc, "status.set", pre, "path", "", params);
      assert pre + params["path"] + "" == pre + ToString(Parse(gameDir));
    } else {
      var t := "Game directory: not set";
      assert '{' !in t && '}' !in t;
      PlainFormat(t, map[]);
    }
  }

  /** A LauncherRoot's variable fields as one value. */
  datatype RootView = RootView(shownScreen: string, gameDir: string, canPlay: bool, statusText: string, currentScreen: string)

  /** The screen the content manager shows after switch_to(screen): the new
      one when the manager has a screen of that name, the old one otherwise. */
  function ShownAfter(screenNames: Option<set<string>>, screen: string, shown: string): string
  {
    if screenNames.Some? && screen in screenNames.value then screen else shown
  }

  class LauncherRoot {
    const sidebar: Sidebar?
    /** The content ScreenManager's screen names, or None without a manager. */
    const screenNames: Option<set<string>>
    /** The screen the content manager shows. */
    var shownScreen: string
    var gameDir: string
    var canPlay: bool
    var statusText: string
    var currentScreen: string

    /** The variable fields as one RootView value. */
    ghost function View(): RootView
      reads this
    {
      RootView(shownScreen, gameDir, canPlay, statusText, currentScreen)
    }

    constructor (sidebar: Sidebar?, screenNames: Option<set<string>>)
      ensures this.sidebar == sidebar && this.screenNames == screenNames
      ensures View() == RootView("home", "", false, "Game directory: not set", "home")
    {
      this.sidebar := sidebar;
      this.screenNames := screenNames;
      shownScreen := "home";
      gameDir := "";
      canPlay := false;
      statusText := "Game directory: not set";
      currentScreen := "home";
    }

    /** refresh_state: can_play and the status line recomputed from game_dir. */
    method RefreshState(fs: FileSystem, loc: Option<Localizer>)
      modifies this
      ensures View() == old(View()).(canPlay := CanPlay(fs, gameDir), statusText := StatusText(fs, loc, gameDir))
    {
      var found := false;
      if gameDir != "" {
        var dir := Parse(gameDir);
        found := Exists(fs, dir) && Exists(fs, Child(dir, GameExecutable));
      }
      canPlay := found;
      if loc.Some? {
        if gameDir != "" && Exists(fs, Parse(gameDir)) {
          statusText := Translate(loc.value, "status.set", map["path" := ToString(Parse(gameDir))]);
        } else {
          statusText := Translate(loc.value, "status.not_set", map[]);
        }
      } else if gameDir != "" {
        statusText := "Game directory: " + ToString(Parse(gameDir));
      } else {
        statusText := "Game directory: not set";
      }
    }

    /** apply_translations: with an application running, the state is
      refreshed and the sidebar labels re-translated; otherwise nothing. */
    method ApplyTranslations(fs: FileSystem, loc: Option<Localizer>)
      modifies this, sidebar
      ensures loc.None? ==> View() == old(View())
      ensures loc.None? && sidebar != null ==> sidebar.View() == old(sidebar.View())
      ensures loc.Some? ==> View() == old(View()).(canPlay := CanPlay(fs, gameDir), statusText := StatusText(fs, loc, gameDir))
      ensures loc.Some? && sidebar != null ==> sidebar.View() == old(sidebar.View()).(buttons := Relabelled(old(sidebar.buttons), loc.value))
    {
      if loc.None? {
        return;
      }
      RefreshState(fs, loc);
      if sidebar != null {
        sidebar.UpdateLabels(loc);
      }
    }

    /** switch_to(screen): the manager shows the screen when it knows it;
      the root and the sidebar record it either way, without calling back. */
    method SwitchTo(screen: string)
      modifies this, sidebar
      ensures View() == old(View()).(currentScreen := screen, shownScreen := ShownAfter(screenNames, screen, old(shownScreen)))
      ensures sidebar != null ==> sidebar.View() == old(sidebar.View()).(activeScreen := screen)
    {
      if screenNames.Some? && screen in screenNames.value {
        shownScreen := screen;
      }
      currentScreen := screen;
      if sidebar != null && sidebar.activeScreen != screen {
        var notified := sidebar.Select(screen, false);
      }
    }

    /** A menu button released: the sidebar selects the screen and, once
      populate registered switch_to as its callback, the root switches. */
    method OnButtonRelease(screen: string)
      requires sidebar != null
      modifies this, sidebar
      ensures sidebar.View() == old(sidebar.View()).(activeScreen := screen)
      ensures sidebar.hasCallback ==>
        View() == old(View()).(currentScreen := screen, shownScreen := ShownAfter(screenNames, screen, old(shownScreen)))
      ensures !sidebar.hasCallback ==> View() == old(View())
    {
      var notified := sidebar.Select(screen, true);
      if notified.Some? {
        SwitchTo(notified.value);
      }
    }

    /** on_kv_post: the sidebar gets the menu and the current screen, then the
      translations are applied; the screen shown does not change. */
    method OnKvPost(fs: FileSystem, loc: Option<Localizer>)
      modifies this, sidebar
      ensures loc.None? ==> View() == old(View())
      ensures loc.Some? ==> View() == old(View()).(canPlay := CanPlay(fs, gameDir), statusText := StatusText(fs, loc, gameDir))
      ensures sidebar != null ==> sidebar.View() == old(sidebar.View()).(
        hasCallback := true, activeScreen := currentScreen,
        buttons := if sidebar.hasContainer then MenuButtons(MenuEntries, loc)
                   else if loc.Some? then Relabelled(old(sidebar.buttons), loc.value)
                   else old(sidebar.buttons))
    {
      if sidebar != null {
        sidebar.Populate(MenuEntries, loc);
        var notified := sidebar.Select(currentScreen, false);
        if loc.Some? && sidebar.hasContainer {
          RelabelMenuButtons(MenuEntries, loc.value);
        }
      }
      ApplyTranslations(fs, loc);
    }
  }

  /** Choosing the launcher's executable through on_file_chosen keeps its
      directory, and with it play is enabled. */
  lemma ExecutableDirectoryCanPlay(fs: FileSystem, dir: Path)
    requires WellFormed(dir) && dir.absolute
    requires dir in fs.dirs && Child(dir, GameExecutable) in fs.files
    ensures CanPlay(fs, ToString(dir))
  {
    ParseToString(dir);
  }
}
