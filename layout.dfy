/** The layout shell: which navigation item is highlighted, the notification
    badge and icons, and the e-mail shown in the profile menu. */
module Layout {
  import opened Text
  import opened Seqs
  import opened Wrappers

  datatype MenuItem = MenuItem(caption: string, path: string, description: string)

  /** The five navigation items, in sidebar order. */
  function MenuItems(): (r: seq<MenuItem>)
    ensures |r| == 5
    ensures forall i :: 0 <= i < 5 ==> |r[i].path| > 1 && r[i].path[0] == '/'
  {
    [ MenuItem("Dashboard", "/dashboard", "Overview sistem"),
      MenuItem("Manajemen Pesanan", "/orders", "Service orders & bandwidth"),
      MenuItem("Rekonsiliasi Jaringan", "/reconciliation", "Fiber optic reconciliation"),
      MenuItem("Analitik AI", "/analytics", "Predictive insights"),
      MenuItem("Monitoring Real-time", "/monitoring", "Live network status") ]
  }

  /** The highlight test both sidebars apply to a link: the location starts
      with the item's path (a path of `/` never counts this way), or the
      location is `/` and the item is the dashboard. */
  predicate IsActive(pathname: string, itemPath: string)
    ensures IsActive(pathname, itemPath) ==> itemPath != "/"
    ensures IsActive(pathname, itemPath) && pathname != "/" ==> StartsWith(pathname, itemPath)
  {
    (StartsWith(pathname, itemPath) && itemPath != "/")
    || (pathname == "/" && itemPath == "/dashboard")
  }

  /** No menu path starts with another one. */
  lemma MenuPathsPrefixFree(i: nat, j: nat)
    requires i < 5 && j < 5 && i != j
    ensures !StartsWith(MenuItems()[i].path, MenuItems()[j].path)
  {
    var a, b := MenuItems()[i].path, MenuItems()[j].path;
    assert a[1] != b[1];
  }

  /** For every location at most one of the five items is highlighted. */
  lemma AtMostOneActive(pathname: string, i: nat, j: nat)
    requires i < 5 && j < 5
    requires IsActive(pathname, MenuItems()[i].path) && IsActive(pathname, MenuItems()[j].path)
    ensures i == j
  {
    var a, b := MenuItems()[i].path, MenuItems()[j].path;
    if i != j && pathname != "/" {
      CommonPrefix(pathname, a, b);
      MenuPathsPrefixFree(i, j);
      MenuPathsPrefixFree(j, i);
    }
  }

  /** On a location other than `/`, an item is highlighted exactly when the
      location starts with its path; on `/` only the dashboard is. */
  lemma ActiveItem(pathname: string, i: nat)
    requires i < 5
    ensures pathname != "/" ==> (IsActive(pathname, MenuItems()[i].path) <==> StartsWith(pathname, MenuItems()[i].path))
    ensures pathname == "/" ==> (IsActive(pathname, MenuItems()[i].path) <==> i == 0)
  {
    var p := MenuItems()[i].path;
    assert p != "/" by { assert |p| > 1; }
    if pathname == "/" && i != 0 {
      assert p[1] != "/dashboard"[1];
    }
  }

  datatype Notification = Notification(id: int, message: string, time: string, read: bool, kind: string)

  /** The fixed notification list; the ids are 1, 2 and 3. */
  function Notifications(): (r: seq<Notification>)
    ensures |r| == 3
    ensures forall i :: 0 <= i < 3 ==> r[i].id == i + 1
  {
    [ Notification(1, "Auto-discovery menemukan 15 device baru", "5 menit lalu", false, "success"),
      Notification(2, "Bandwidth utilization mencapai 85% di TBS1", "15 menit lalu", false, "warning"),
      Notification(3, "Reconciliation completed: 0 conflicts found", "1 jam lalu", true, "info") ]
  }

  function IsUnread(): Notification -> bool {
    (n: Notification) => !n.read
  }

  /** `unreadNotifications`: the number of unread notifications. */
  function UnreadNotifications(notifications: seq<Notification>): (r: nat)
    ensures r <= |notifications|
  {
    |Filter(notifications, IsUnread())|
  }

  /** The unread and the read notifications together are all of them, and
      the badge (shown when the count is positive) appears exactly when some
      notification is unread. */
  lemma UnreadCount(notifications: seq<Notification>)
    ensures UnreadNotifications(notifications) + |Filter(notifications, Not(IsUnread()))| == |notifications|
    ensures UnreadNotifications(notifications) > 0 <==> exists i :: 0 <= i < |notifications| && !notifications[i].read
  {
    FilterSplit(notifications, IsUnread());
    FilterEmptyIffNone(notifications, IsUnread());
  }

  /** Two of the three fixed notifications are unread. */
  lemma FixedUnreadCount()
    ensures UnreadNotifications(Notifications()) == 2
  {
    var ns := Notifications();
    assert Filter(ns, IsUnread()) == [ns[0], ns[1]] by {
      assert Filter(ns[2..], IsUnread()) == [];
      assert ns[1..][1..] == ns[2..];
    }
  }

  const SuccessIcon: string := "\U{2705}"
  const WarningIcon: string := "\U{26A0}\U{FE0F}"
  const ErrorIcon: string := "\U{274C}"
  const InfoIcon: string := "\U{2139}\U{FE0F}"

  /** `getNotificationIcon`: one icon per notification kind. */
  function GetNotificationIcon(kind: string): (icon: string)
    ensures icon == InfoIcon <==> kind != "success" && kind != "warning" && kind != "error"
  {
    if kind == "success" then SuccessIcon
    else if kind == "warning" then WarningIcon
    else if kind == "error" then ErrorIcon
    else InfoIcon
  }

  /** The four icons are distinct, so the icon tells the kinds `success`,
      `warning` and `error` apart from each other and from every other
      kind. */
  lemma NotificationIconsDistinct(a: string, b: string)
    requires a == "success" || a == "warning" || a == "error"
    ensures GetNotificationIcon(a) == GetNotificationIcon(b) <==> a == b
  {
  }

  const Domain: string := "@telkom.co.id"
  const FallbackEmail: string := "admin" + Domain

  /** How a JavaScript `+` renders a possibly missing string: `undefined`
      when it is absent. */
  function Rendered(username: Option<string>): string {
    match username
    case None => "undefined"
    case Some(u) => u
  }

  /** `getUserEmail` as written: `user?.username + '@telkom.co.id'`, with
      the fallback taken only when that concatenation is empty, which it
      never is. */
  function GetUserEmail(username: Option<string>): (email: string)
    ensures email == Rendered(username) + Domain
  {
    var concatenated := Rendered(username) + Domain;
    if concatenated != "" then concatenated else FallbackEmail
  }

  /** A missing user yields `undefined@telkom.co.id`, not the fallback. */
  lemma MissingUserEmail()
    ensures GetUserEmail(None) == "undefined@telkom.co.id"
    ensures GetUserEmail(None) != FallbackEmail
  {
    assert GetUserEmail(None)[0] == 'u';
  }

  /** The fallback address comes out only for a user literally named
      `admin`, never as a fallback. */
  lemma FallbackOnlyForAdmin(username: Option<string>)
    ensures GetUserEmail(username) == FallbackEmail <==> username == Some("admin")
  {
    var r := Rendered(username);
    if username == Some("admin") {
      assert r + Domain == FallbackEmail;
    } else if username.Some? && |r| == 5 {
      assert (r + Domain)[..5] == r;
      assert FallbackEmail[..5] == "admin";
    }
  }

  /** `getUserEmail` as evidently intended: the fallback address when there
      is no user name, the user name at the domain otherwise. */
  function IntendedUserEmail(username: Option<string>): (email: string)
    ensures username.None? || username.value == "" ==> email == FallbackEmail
    ensures username.Some? && username.value != "" ==> email == username.value + Domain
  {
    match username
    case Some(u) => if u != "" then u + Domain else FallbackEmail
    case None => FallbackEmail
  }

  /** `email.split('@')[0]`: the text before the first `@`. */
  function LocalPart(email: string): (r: string)
    ensures StartsWith(email, r)
    ensures '@' !in r
    ensures |r| < |email| ==> email[|r|] == '@'
  {
    if email == [] || email[0] == '@' then [] else [email[0]] + LocalPart(email[1..])
  }

  /** The name the profile menu shows, taken from the corrected e-mail: the
      part of the address before its first `@`. */
  function ProfileName(username: Option<string>): (r: string)
    ensures '@' !in r && StartsWith(IntendedUserEmail(username), r)
  {
    LocalPart(IntendedUserEmail(username))
  }

  /** The text before the first `@` of `name + rest`, when `name` has no `@`
      and `rest` starts with one, is `name`. */
  lemma {:induction false} LocalPartOfAddress(name: string, rest: string)
    requires '@' !in name && rest != [] && rest[0] == '@'
    ensures LocalPart(name + rest) == name
  {
    if name != [] {
      assert (name + rest)[1..] == name[1..] + rest;
      LocalPartOfAddress(name[1..], rest);
    }
  }

  /** As written, the profile shows the rendered user name whenever it has no
      `@`, so with no user it shows `undefined`. */
  lemma ProfileNameAsWritten(username: Option<string>)
    ensures '@' !in Rendered(username) ==> LocalPart(GetUserEmail(username)) == Rendered(username)
    ensures username.None? ==> LocalPart(GetUserEmail(username)) == "undefined"
  {
    if '@' !in Rendered(username) {
      LocalPartOfAddress(Rendered(username), Domain);
    }
  }

  /** With the corrected e-mail, the profile shows a user name without `@` as
      it is and `admin` when there is none. */
  lemma ProfileNameShown(username: Option<string>)
    requires username.Some? ==> '@' !in username.value
    ensures ProfileName(username) == if username.Some? && username.value != "" then username.value else "admin"
  {
    if username.Some? && username.value != "" {
      LocalPartOfAddress(username.value, Domain);
    } else {
      LocalPartOfAddress("admin", Domain);
    }
  }
}
