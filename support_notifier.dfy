/**
  The support notification: shown once for each new project version, unless
  the user switched it off. The last version notified about is kept in the
  `support-notifier-project-version` setting.
*/
module SupportNotifier {
  import opened Wrappers
  import SettingsPages

  const PROJECT_ICON := "/icons/hicolor/16x16/actions/settings-arcmenu-logo.svg"

  /** The settings the notifier reads and writes. */
  class SupportSettings {
    /** `support-notifier-enabled`. */
    var enabled: bool
    /** `support-notifier-project-version`. */
    var projectVersion: int
    /** `prefs-visible-page`, the page the preferences window opens on. */
    var prefsVisiblePage: SettingsPages.SettingsPage

    constructor (enabled: bool, projectVersion: int)
      ensures this.enabled == enabled && this.projectVersion == projectVersion
      ensures prefsVisiblePage == SettingsPages.Main
    {
      this.enabled := enabled;
      this.projectVersion := projectVersion;
      prefsVisiblePage := SettingsPages.Main;
    }
  }

  /**
    The extension as the notifier sees it: its settings, its directory, its
    metadata version, and the pages its preferences were opened on.
  */
  class Extension {
    const settings: SupportSettings
    const path: string
    const version: int
    /** The `prefs-visible-page` value at each `openPreferences` call, oldest first. */
    var openedPreferences: seq<SettingsPages.SettingsPage>

    constructor (settings: SupportSettings, path: string, version: int)
      ensures this.settings == settings && this.path == path && this.version == version
      ensures openedPreferences == []
    {
      this.settings := settings;
      this.path := path;
      this.version := version;
      openedPreferences := [];
    }
  }

  /** An action button of the notification. */
  datatype Action = OpenPage(page: SettingsPages.SettingsPage) | Dismiss

  /** The actions `_addNotificationActions` adds: Donate, What's new?, Dismiss. */
  const NotificationActions: seq<Action> := [OpenPage(SettingsPages.Donate), OpenPage(SettingsPages.WhatsNew), Dismiss]

  /**
    The two page actions open pages the preferences window shows: Donate
    opens the donation page, "What's new?" the about page with its what's-new
    subpage.
  */
  lemma ActionsOpenShownPages()
    ensures forall a :: a in NotificationActions && a.OpenPage? ==> SettingsPages.ViewFor(a.page).Some?
    ensures SettingsPages.ViewFor(NotificationActions[0].page) == Some(SettingsPages.PageView("DonatePage", SettingsPages.NoSubpage))
    ensures SettingsPages.ViewFor(NotificationActions[1].page) == Some(SettingsPages.PageView("AboutPage", SettingsPages.WhatsNewPage))
  {
  }

  /** The stored version after a check, and whether a notification was shown. */
  datatype Outcome = Outcome(projectVersion: int, shown: bool)

  /** What `_maybeShowNotification` does with the settings it reads and the current version. */
  function Decide(enabled: bool, previousNotificationVersion: int, version: int): Outcome {
    if !enabled then Outcome(previousNotificationVersion, false)
    else if previousNotificationVersion < version then Outcome(version, true)
    else Outcome(previousNotificationVersion, false)
  }

  /**
    A notification is shown exactly when the notifier is enabled and the
    stored version is older than the current one; the stored version then
    becomes the current one, and otherwise stays as it was.
  */
  lemma DecideShowsNewVersion(enabled: bool, previous: int, version: int)
    ensures Decide(enabled, previous, version).shown <==> enabled && previous < version
    ensures Decide(enabled, previous, version).shown ==> Decide(enabled, previous, version).projectVersion == version
    ensures !Decide(enabled, previous, version).shown ==> Decide(enabled, previous, version).projectVersion == previous
  {
  }

  /** The stored version never goes down, and never passes the current one unless it already had. */
  lemma DecideMonotone(enabled: bool, previous: int, version: int)
    ensures var v := Decide(enabled, previous, version).projectVersion;
            previous <= v && (v == previous || v == version)
  {
  }

  /** A second check for the same version shows nothing and changes nothing. */
  lemma SecondCheckSilent(enabled: bool, previous: int, version: int)
    ensures var o := Decide(enabled, previous, version);
            Decide(enabled, o.projectVersion, version) == Outcome(o.projectVersion, false)
  {
  }

  class SupportNotification {
    var extension: Extension?
    var settings: SupportSettings?
    var version: Option<int>
    var iconPath: Option<string>
    /** The versions of the notifications handed to the message tray, oldest first. */
    var shownNotifications: seq<int>
    /** The actions of the last notification shown. */
    var actions: seq<Action>

    /** Takes the settings, version and icon path from the extension, then checks once. */
    constructor (extension: Extension)
      modifies extension.settings
      ensures this.extension == extension && settings == extension.settings
      ensures version == Some(extension.version)
      ensures iconPath == Some(extension.path + "/" + PROJECT_ICON)
      ensures var o := Decide(old(extension.settings.enabled), old(extension.settings.projectVersion), extension.version);
              && extension.settings.projectVersion == o.projectVersion
              && extension.settings.enabled == old(extension.settings.enabled)
              && extension.settings.prefsVisiblePage == old(extension.settings.prefsVisiblePage)
              && shownNotifications == (if o.shown then [extension.version] else [])
              && actions == (if o.shown then NotificationActions else [])
    {
      this.extension := extension;
      settings := extension.settings;
      version := Some(extension.version);
      iconPath := Some(extension.path + "/" + PROJECT_ICON);
      shownNotifications := [];
      actions := [];
      new;
      MaybeShowNotification();
    }

    /** `destroy`: drops every reference the notifier holds. */
    method Destroy()
      modifies this
      ensures settings == null && extension == null && version == None && iconPath == None
      ensures shownNotifications == old(shownNotifications) && actions == old(actions)
    {
      settings := null;
      extension := null;
      version := None;
      iconPath := None;
    }

    /**
      `_maybeShowNotification`: when enabled and the stored version is older,
      stores the current version and shows one notification; otherwise
      writes nothing and shows nothing.
    */
    method MaybeShowNotification()
      requires settings != null && version.Some?
      modifies settings, this
      ensures settings == old(settings) && version == old(version)
      ensures extension == old(extension) && iconPath == old(iconPath)
      ensures settings.enabled == old(settings.enabled)
      ensures settings.prefsVisiblePage == old(settings.prefsVisiblePage)
      ensures var o := Decide(old(settings.enabled), old(settings.projectVersion), version.value);
              && settings.projectVersion == o.projectVersion
              && shownNotifications == old(shownNotifications) + (if o.shown then [version.value] else [])
              && actions == (if o.shown then NotificationActions else old(actions))
    {
      var shouldShowNotification := settings.enabled;
      if !shouldShowNotification {
        return;
      }
      var previousNotificationVersion := settings.projectVersion;
      var shouldNotifyNewVersion := previousNotificationVersion < version.value;
      if shouldNotifyNewVersion {
        settings.projectVersion := version.value;
        ShowNotification();
      }
    }

    /** `_showNotification`: one notification for the current version, with its actions. */
    method ShowNotification()
      requires version.Some?
      modifies this
      ensures settings == old(settings) && version == old(version)
      ensures extension == old(extension) && iconPath == old(iconPath)
      ensures shownNotifications == old(shownNotifications) + [version.value]
      ensures actions == NotificationActions
    {
      actions := NotificationActions;
      shownNotifications := shownNotifications + [version.value];
    }

    /**
      `_openSettingsPage`, run by a page action: the page is stored in
      `prefs-visible-page` and the preferences are opened on it.
    */
    method OpenSettingsPage(page: SettingsPages.SettingsPage)
      requires settings != null && extension != null
      modifies settings, extension
      ensures settings.prefsVisiblePage == page
      ensures settings.enabled == old(settings.enabled) && settings.projectVersion == old(settings.projectVersion)
      ensures extension.openedPreferences == old(extension.openedPreferences) + [settings.prefsVisiblePage]
    {
      settings.prefsVisiblePage := page;
      extension.openedPreferences := extension.openedPreferences + [settings.prefsVisiblePage];
    }
  }
}
