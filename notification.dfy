/**
  The shell-side notification that greets a new release, or else asks for a
  donation once a calendar month has passed since the last one. Two settings
  drive it: a per-release flag (`show-update-notification-v64`) and the time
  of the last notification (`previous-notification-date`, milliseconds since
  the epoch, 0 when none was ever shown).
*/
module MonthlyNotification {
  import opened Wrappers

  const PROJECT_ICON := "/icons/hicolor/16x16/actions/settings-arcmenu-logo.svg"
  const PROJECT_GITLAB := "https://gitlab.com/arcmenu/ArcMenu/-/releases/v"
  const PAYPAL_LINK := "https://www.paypal.com/cgi-bin/webscr?cmd=_donations&business=53CWA7NR743WC&item_name=Support+ArcMenu&source=url"
  const BUYMEACOFFEE_LINK := "https://buymeacoffee.com/azaech"

  /** `NotifyType`: MONTHLY = 1, NEW_RELEASE = 2. */
  datatype NotifyType = Monthly | NewRelease

  // ---------------------------------------------------------------------------
  // Has a month elapsed?

  /**
    The local calendar fields of a timestamp: full year, month (0 for
    January) and day of the month, as `Date` reports them.
  */
  datatype CalendarDate = CalendarDate(year: int, month: int, day: int)

  /** Months counted from year 0, so that month differences are subtractions. */
  function MonthNumber(d: CalendarDate): int {
    d.year * 12 + d.month
  }

  /**
    `_hasMonthElapsed`: 0 for the start means "never notified"; otherwise more
    than one calendar month apart, or exactly one with the end day not before
    the start day.
  */
  function HasMonthElapsed(startTimestamp: nat, endTimestamp: nat, calendar: nat -> CalendarDate): bool {
    if startTimestamp == 0 then true
    else
      var startDate, endDate := calendar(startTimestamp), calendar(endTimestamp);
      var monthDifference := (endDate.year - startDate.year) * 12 + (endDate.month - startDate.month);
      if monthDifference > 1 then true
      else if monthDifference == 1 then endDate.day >= startDate.day
      else false
  }

  /** Calendar position `(months, day)` `a` is the same as `b` or later. */
  predicate NotBefore(a: CalendarDate, b: CalendarDate) {
    MonthNumber(a) > MonthNumber(b) || (MonthNumber(a) == MonthNumber(b) && a.day >= b.day)
  }

  /** The same day of the following month. */
  function NextMonthSameDay(d: CalendarDate): (n: CalendarDate)
    ensures MonthNumber(n) == MonthNumber(d) + 1 && n.day == d.day
  {
    if d.month == 11 then CalendarDate(d.year + 1, 0, d.day) else CalendarDate(d.year, d.month + 1, d.day)
  }

  /**
    A month has elapsed exactly when nothing was shown before, or the end date
    has reached the start's day in the following month.
  */
  lemma MonthElapsedMeansNextMonthReached(startTimestamp: nat, endTimestamp: nat, calendar: nat -> CalendarDate)
    ensures HasMonthElapsed(startTimestamp, endTimestamp, calendar)
            == (startTimestamp == 0 || NotBefore(calendar(endTimestamp), NextMonthSameDay(calendar(startTimestamp))))
  {
  }

  /** Never notified counts as elapsed. */
  lemma NeverNotifiedElapsed(endTimestamp: nat, calendar: nat -> CalendarDate)
    ensures HasMonthElapsed(0, endTimestamp, calendar)
  {
  }

  /** The three cases by month difference, for a real start time. */
  lemma MonthElapsedCases(startTimestamp: nat, endTimestamp: nat, calendar: nat -> CalendarDate)
    requires startTimestamp != 0
    ensures var s, e := calendar(startTimestamp), calendar(endTimestamp);
            var diff := MonthNumber(e) - MonthNumber(s);
            && (diff > 1 ==> HasMonthElapsed(startTimestamp, endTimestamp, calendar))
            && (diff == 1 ==> (HasMonthElapsed(startTimestamp, endTimestamp, calendar) <==> e.day >= s.day))
            && (diff <= 0 ==> !HasMonthElapsed(startTimestamp, endTimestamp, calendar))
  {
  }

  /** No month has elapsed between a (real) timestamp and itself. */
  lemma SameInstantNotElapsed(now: nat, calendar: nat -> CalendarDate)
    requires now != 0
    ensures !HasMonthElapsed(now, now, calendar)
  {
  }

  /** Once a month has elapsed, it stays elapsed for any later end date. */
  lemma MonthElapsedMonotone(startTimestamp: nat, end1: nat, end2: nat, calendar: nat -> CalendarDate)
    requires HasMonthElapsed(startTimestamp, end1, calendar)
    requires NotBefore(calendar(end2), calendar(end1))
    ensures HasMonthElapsed(startTimestamp, end2, calendar)
  {
    MonthElapsedMeansNextMonthReached(startTimestamp, end1, calendar);
    MonthElapsedMeansNextMonthReached(startTimestamp, end2, calendar);
  }

  // ---------------------------------------------------------------------------
  // Deciding what to show

  /** The two settings after a check, and the notification it shows, if any. */
  datatype Outcome = Outcome(showUpdateNotification: bool, previousNotificationDate: nat, shown: Option<NotifyType>)

  /** What `_maybeShowNotifcation` does with the settings it reads and the time now. */
  function Decide(showUpdateNotification: bool, previousNotificationDate: nat, dateNow: nat,
                  calendar: nat -> CalendarDate): Outcome
  {
    var hasMonthElapsed := HasMonthElapsed(previousNotificationDate, dateNow, calendar);
    var flag, date :=
      if hasMonthElapsed || showUpdateNotification then false else showUpdateNotification,
      if hasMonthElapsed || showUpdateNotification then dateNow else previousNotificationDate;
    var shown :=
      if showUpdateNotification then Some(NewRelease)
      else if hasMonthElapsed then Some(Monthly)
      else None;
    Outcome(flag, date, shown)
  }

  /**
    The new-release notification wins over the monthly one; the monthly one is
    shown only when no release is pending and a month has elapsed; nothing is
    shown otherwise.
  */
  lemma DecideShows(flag: bool, previous: nat, now: nat, calendar: nat -> CalendarDate)
    ensures var o := Decide(flag, previous, now, calendar);
            var elapsed := HasMonthElapsed(previous, now, calendar);
            && (o.shown == Some(NewRelease) <==> flag)
            && (o.shown == Some(Monthly) <==> !flag && elapsed)
            && (o.shown == None <==> !flag && !elapsed)
  {
  }

  /**
    The settings are written exactly when something is shown: the flag is
    cleared and the date becomes now. Otherwise both keep their values.
  */
  lemma DecideWrites(flag: bool, previous: nat, now: nat, calendar: nat -> CalendarDate)
    ensures var o := Decide(flag, previous, now, calendar);
            && (o.shown != None ==> !o.showUpdateNotification && o.previousNotificationDate == now)
            && (o.shown == None ==> o.showUpdateNotification == flag && o.previousNotificationDate == previous)
  {
  }

  /**
    Checking twice at the same (real) instant shows at most one notification:
    the second check finds the settings it needs to stay silent.
  */
  lemma SecondCheckSilent(flag: bool, previous: nat, now: nat, calendar: nat -> CalendarDate)
    requires now != 0
    ensures var o := Decide(flag, previous, now, calendar);
            Decide(o.showUpdateNotification, o.previousNotificationDate, now, calendar).shown == None
  {
    var o := Decide(flag, previous, now, calendar);
    if o.shown != None {
      SameInstantNotElapsed(now, calendar);
    }
  }

  /** At time 0 "never notified" and "notified now" cannot be told apart. */
  lemma SecondCheckAtEpoch(calendar: nat -> CalendarDate)
    ensures var o := Decide(false, 0, 0, calendar);
            o.shown == Some(Monthly) && Decide(o.showUpdateNotification, o.previousNotificationDate, 0, calendar).shown == Some(Monthly)
  {
  }

  // ---------------------------------------------------------------------------
  // Text of the notification

  /** The decimal digits of `n`, as `Number.prototype.toString` writes them. */
  function DecimalString(n: nat): (s: string)
    ensures |s| >= 1 && (s[0] == '0' ==> s == "0")
    ensures forall k :: 0 <= k < |s| ==> '0' <= s[k] <= '9'
    ensures DecimalValue(s) == n
  {
    var digit := ['0' + (n % 10) as char];
    if n < 10 then
      assert DecimalValue(digit) == DecimalValue([]) * 10 + n % 10;
      digit
    else
      var front := DecimalString(n / 10);
      var s := front + digit;
      assert s[..|s| - 1] == front;
      s
  }

  /** The number a string of decimal digits denotes. */
  function DecimalValue(s: string): nat
    requires forall k :: 0 <= k < |s| ==> '0' <= s[k] <= '9'
  {
    if s == [] then 0 else DecimalValue(s[..|s| - 1]) * 10 + (s[|s| - 1] - '0') as nat
  }

  /** The version shown: `version-name` when it is non-empty, else the version number. */
  function VersionText(versionName: string, version: nat): (v: string)
    ensures versionName != "" ==> v == versionName
    ensures versionName == "" ==> (forall k :: 0 <= k < |v| ==> '0' <= v[k] <= '9') && DecimalValue(v) == version
  {
    if versionName != "" then versionName else DecimalString(version)
  }

  /**
    The links behind the notification's actions, in order: "What's new?" for a
    release, then the two donation links.
  */
  function ActionLinks(notifyType: NotifyType, whatsNewLink: string): (links: seq<string>)
    ensures |links| >= 2 && links[|links| - 2..] == [PAYPAL_LINK, BUYMEACOFFEE_LINK]
    ensures whatsNewLink in links <==> notifyType == NewRelease || whatsNewLink in [PAYPAL_LINK, BUYMEACOFFEE_LINK]
    ensures notifyType == NewRelease ==> links[0] == whatsNewLink && |links| == 3
    ensures notifyType == Monthly ==> |links| == 2
  {
    (if notifyType == NewRelease then [whatsNewLink] else []) + [PAYPAL_LINK, BUYMEACOFFEE_LINK]
  }

  // ---------------------------------------------------------------------------
  // The objects

  /** The two settings the notification reads and writes. */
  class NotificationSettings {
    var showUpdateNotification: bool
    var previousNotificationDate: nat

    constructor (showUpdateNotification: bool, previousNotificationDate: nat)
      ensures this.showUpdateNotification == showUpdateNotification
      ensures this.previousNotificationDate == previousNotificationDate
    {
      this.showUpdateNotification := showUpdateNotification;
      this.previousNotificationDate := previousNotificationDate;
    }
  }

  class Notification {
    const version: string
    const iconPath: string
    const whatsNewLink: string
    /** The local calendar the shell computes with, standing for `Date`. */
    const calendar: nat -> CalendarDate
    /** The type of the last notification shown. */
    var notifyType: Option<NotifyType>
    /** Every notification handed to the message tray, oldest first. */
    var shownNotifications: seq<NotifyType>
    /** The links behind the actions of the last notification shown, in order. */
    var actionLinks: seq<string>

    /**
      Reads the version text from the metadata, builds the icon path and the
      release link, and checks the settings once at time `dateNow`.
    */
    constructor (versionName: string, versionNumber: nat, extensionPath: string,
                 settings: NotificationSettings, dateNow: nat, calendar: nat -> CalendarDate)
      modifies settings
      ensures version == VersionText(versionName, versionNumber)
      ensures iconPath == extensionPath + "/" + PROJECT_ICON
      ensures whatsNewLink == PROJECT_GITLAB + version
      ensures this.calendar == calendar
      ensures var o := Decide(old(settings.showUpdateNotification), old(settings.previousNotificationDate), dateNow, calendar);
              && settings.showUpdateNotification == o.showUpdateNotification
              && settings.previousNotificationDate == o.previousNotificationDate
              && notifyType == o.shown
              && shownNotifications == (if o.shown.Some? then [o.shown.value] else [])
              && actionLinks == (if o.shown.Some? then ActionLinks(o.shown.value, whatsNewLink) else [])
    {
      version := VersionText(versionName, versionNumber);
      iconPath := extensionPath + "/" + PROJECT_ICON;
      whatsNewLink := PROJECT_GITLAB + VersionText(versionName, versionNumber);
      this.calendar := calendar;
      notifyType := None;
      shownNotifications := [];
      actionLinks := [];
      new;
      MaybeShowNotification(settings, dateNow);
    }

    /**
      `_maybeShowNotifcation`: both settings are written when either
      notification is due, and at most one notification is shown.
    */
    method MaybeShowNotification(settings: NotificationSettings, dateNow: nat)
      modifies this, settings
      ensures var o := Decide(old(settings.showUpdateNotification), old(settings.previousNotificationDate), dateNow, calendar);
              && settings.showUpdateNotification == o.showUpdateNotification
              && settings.previousNotificationDate == o.previousNotificationDate
              && notifyType == (if o.shown.Some? then o.shown else old(notifyType))
              && shownNotifications == old(shownNotifications) + (if o.shown.Some? then [o.shown.value] else [])
              && actionLinks == (if o.shown.Some? then ActionLinks(o.shown.value, whatsNewLink) else old(actionLinks))
    {
      var showUpdateNotification := settings.showUpdateNotification;
      var previousNotificationDate := settings.previousNotificationDate;
      var hasMonthElapsed := HasMonthElapsed(previousNotificationDate, dateNow, calendar);

      if hasMonthElapsed || showUpdateNotification {
        settings.showUpdateNotification := false;
        settings.previousNotificationDate := dateNow;
      }

      if showUpdateNotification {
        ShowNotification(NewRelease);
      } else if hasMonthElapsed {
        ShowNotification(Monthly);
      }
    }

    /**
      `_showNotification`: records the type and hands one notification to the
      tray, with the actions `_addNotificationActions` gives it.
    */
    method ShowNotification(t: NotifyType)
      modifies this
      ensures notifyType == Some(t)
      ensures shownNotifications == old(shownNotifications) + [t]
      ensures actionLinks == ActionLinks(t, whatsNewLink)
    {
      notifyType := Some(t);
      AddNotificationActions();
      shownNotifications := shownNotifications + [t];
    }

    /** `_addNotificationActions`: "What's new?" for a release, then the two donation links. */
    method AddNotificationActions()
      requires notifyType.Some?
      modifies this
      ensures notifyType == old(notifyType) && shownNotifications == old(shownNotifications)
      ensures actionLinks == ActionLinks(notifyType.value, whatsNewLink)
    {
      actionLinks := [];
      if notifyType == Some(NewRelease) {
        actionLinks := actionLinks + [whatsNewLink];
      }
      actionLinks := actionLinks + [PAYPAL_LINK];
      actionLinks := actionLinks + [BUYMEACOFFEE_LINK];
    }
  }
}
