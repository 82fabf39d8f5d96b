/** The icon lookup of AdminPanel.getNotificationIcon (admin.js:462-470). */
module Notifications {

  /** The `icons` object: Font Awesome icon names by notification type. */
  const ICONS: map<string, string> := map[
    "success" := "check-circle",
    "error" := "exclamation-circle",
    "info" := "info-circle",
    "warning" := "exclamation-triangle"]

  /** The icon used when a type has none of its own. */
  const DEFAULT_ICON: string := "info-circle"

  /** `icons[type] || 'info-circle'` */
  function NotificationIcon(kind: string): (icon: string)
    ensures icon in ICONS.Values
    ensures icon == DEFAULT_ICON <==> kind !in ICONS || kind == "info"
  {
    assert ICONS["info"] == DEFAULT_ICON;
    if kind in ICONS && ICONS[kind] != "" then ICONS[kind] else DEFAULT_ICON
  }

  /** The four known types map to four different fixed icons. */
  lemma KnownIcons()
    ensures NotificationIcon("success") == "check-circle"
    ensures NotificationIcon("error") == "exclamation-circle"
    ensures NotificationIcon("info") == "info-circle"
    ensures NotificationIcon("warning") == "exclamation-triangle"
  {
  }

  /** Distinct known types never share an icon. */
  lemma KnownIconsDistinct(a: string, b: string)
    requires a in ICONS && b in ICONS && a != b
    ensures NotificationIcon(a) != NotificationIcon(b)
  {
  }
}
