/**
  The settings pages of the preferences window: the values of the
  `prefs-visible-page` setting and the page (and subpage) each one shows.
  Shared by the preferences window and by the notifier that opens it.
*/
module SettingsPages {
  import opened Wrappers

  /**
    The value of the `prefs-visible-page` setting, by `SettingsPage` name.
    `Unlisted(code)` stands for a stored number that no listed member has.
  */
  datatype SettingsPage =
    | Main | CustomizeMenu | MenuLayout | MenuTheme | ButtonAppearance | RunnerTweaks
    | About | General | Donate | WhatsNew | Unlisted(code: int)

  datatype Subpage = NoSubpage | Presented(page: SettingsPage) | WhatsNewPage

  datatype PageView = PageView(pageName: string, subpage: Subpage)

  /** The pages `_populateWindow` adds to the window, by name. */
  const PageNames: set<string> := {"GeneralPage", "MenuPage", "MenuButtonPage", "DonatePage", "AboutPage"}

  /** The page (and subpage) `_setVisiblePage` shows for a setting value; unlisted values show none. */
  function ViewFor(p: SettingsPage): (v: Option<PageView>)
    ensures v.Some? ==> v.value.pageName in PageNames
    ensures v.None? <==> p.Unlisted?
  {
    match p
    case Main => Some(PageView("GeneralPage", NoSubpage))
    case CustomizeMenu => Some(PageView("MenuPage", NoSubpage))
    case MenuLayout => Some(PageView("MenuPage", Presented(MenuLayout)))
    case MenuTheme => Some(PageView("MenuPage", Presented(MenuTheme)))
    case ButtonAppearance => Some(PageView("MenuButtonPage", NoSubpage))
    case RunnerTweaks => Some(PageView("MenuPage", Presented(RunnerTweaks)))
    case About => Some(PageView("AboutPage", NoSubpage))
    case General => Some(PageView("GeneralPage", NoSubpage))
    case Donate => Some(PageView("DonatePage", NoSubpage))
    case WhatsNew => Some(PageView("AboutPage", WhatsNewPage))
    case Unlisted(_) => None
  }
}
