/**
 Links that open the app (mobile/src/deep-links.ts): only the site's own pages are shown in it.
 */
module DeepLinks {
  import opened Text
  import opened Url
  import opened Navigation

  datatype Target = Open(url: string) | Outside(url: string)

  const EXCLUDED_PREFIXES: set<string> := {"/api/", "/mobile-auth/", "/.well-known/"}

  predicate IsExcluded(path: string) {
    exists prefix :: prefix in EXCLUDED_PREFIXES && StartsWith(path, prefix)
  }

  /** A link to one of the site's pages, or None. */
  function SitePageUrl(link: Option<string>, site: string, lower: string -> string): Option<string> {
    if link.None? || link.value == "" then None
    else
      match ParseUrl(link.value, lower)
      case None => None
      case Some(u) =>
        if !Special(u.scheme) || OriginOf(u) != site || IsExcluded(u.path) then None else link
  }

  function Centre(site: string): string {
    site + "/notifications"
  }

  predicate Has(s: string, c: char) {
    c in s
  }

  /** Where a tapped notification goes; data is its `url` when that is a string. */
  function NotificationTarget(data: Option<string>, site: string, lower: string -> string): Target {
    if data.None? || Trim(data.value) == "" then Open(Centre(site))
    else
      var value := Trim(data.value);
      if StartsWith(value, "/") && !StartsWith(value, "//") && !Has(value, '\\') then
        match SitePageUrl(Some(site + value), site, lower)
        case Some(page) => Open(page)
        case None => Open(Centre(site))
      else
        match SitePageUrl(Some(value), site, lower)
        case Some(page) => Open(page)
        case None =>
          match ParseUrl(value, lower)
          case Some(u) => if u.scheme == "https" && u.host != "" then Outside(value) else Open(Centre(site))
          case None => Open(Centre(site))
  }

  /* ---- the site's origin ---- */

  /** The site's origin, canonically written: its scheme, host and port are what the parser finds in it. */
  ghost predicate IsSiteOrigin(site: string, scheme: string, host: string, port: string, lower: string -> string) {
    Canonical(scheme, host, port) && lower(host) == host && site == scheme + "://" + HostPort(host, port)
  }

  /** The URL is a page of the site that the app may show. */
  predicate IsSitePage(url: string, site: string, lower: string -> string) {
    var parsed := ParseUrl(url, lower);
    parsed.Some? && Special(parsed.value.scheme) && OriginOf(parsed.value) == site && !IsExcluded(parsed.value.path)
  }

  lemma NotificationsPath()
    ensures EndsAuthority("/notifications") && TrimEnd("/notifications") == "/notifications"
    ensures Slashed("/notifications") == "/notifications" && '#' !in "/notifications" && '?' !in "/notifications"
  {
    assert !IsSpace("/notifications"[13]);
  }

  lemma NotificationsAllowed()
    ensures !IsExcluded("/notifications")
  {
    assert forall prefix :: prefix in EXCLUDED_PREFIXES ==> prefix in ["/api/", "/mobile-auth/", "/.well-known/"];
    assert "/notifications"[1] == 'n' && "/api/"[1] == 'a' && "/mobile-auth/"[1] == 'm' && "/.well-known/"[1] == '.';
  }

  lemma CentreIsSitePage(site: string, scheme: string, host: string, port: string, lower: string -> string)
    requires IsSiteOrigin(site, scheme, host, port, lower)
    ensures IsSitePage(Centre(site), site, lower)
  {
    hide Canonical, HostPort, ParseUrl, TrimEnd, IsExcluded, Slashed;
    NotificationsPath();
    NotificationsAllowed();
    CanonicalParts(scheme, host, port);
    ParseUnder(scheme, host, port, "/notifications", lower);
    WholeBefore("/notifications");
  }

  lemma CanonicalParts(scheme: string, host: string, port: string)
    requires Canonical(scheme, host, port)
    ensures Special(scheme) && host != ""
  {
  }

  lemma WholeBefore(s: string)
    requires '#' !in s && '?' !in s
    ensures Before(Before(s, '#'), '?') == s
  {
  }

  lemma SitePageIs(link: Option<string>, site: string, lower: string -> string)
    ensures SitePageUrl(link, site, lower).Some? ==>
            SitePageUrl(link, site, lower) == link && IsSitePage(link.value, site, lower)
  {
    hide ParseUrl, IsExcluded;
  }

  lemma OpenedIsSitePage(data: Option<string>, site: string, scheme: string, host: string, port: string,
      lower: string -> string)
    requires IsSiteOrigin(site, scheme, host, port, lower)
    requires NotificationTarget(data, site, lower).Open?
    ensures IsSitePage(NotificationTarget(data, site, lower).url, site, lower)
  {
    hide ParseUrl, IsSiteOrigin, SitePageUrl, Trim, IsSitePage, IsExcluded, Centre, StartsWith, Has;
    CentreIsSitePage(site, scheme, host, port, lower);
    if data.Some? {
      SitePageIs(Some(site + Trim(data.value)), site, lower);
      SitePageIs(Some(Trim(data.value)), site, lower);
    }
  }

  /** Whatever a notification carries, what it opens in the app is an allowed page of the site, and the app loads it. */
  lemma OpensOnlySitePages(data: Option<string>, site: string, scheme: string, host: string, port: string,
      isTopFrame: bool,
                           lower: string -> string, decode: string -> Option<string>)
    requires IsSiteOrigin(site, scheme, host, port, lower)
    requires NotificationTarget(data, site, lower).Open?
    ensures var url := NotificationTarget(data, site, lower).url;
            && IsSitePage(url, site, lower)
            && DecideNavigation(url, site, isTopFrame, lower, decode) == Load
            && DecideNewWindow(url, site, lower, decode) == Load
  {
    hide ParseUrl, NotificationTarget, IsSiteOrigin, DecideNavigation, DecideNewWindow, IsExcluded, OriginOf;
    OpenedIsSitePage(data, site, scheme, host, port, lower);
    OwnPageLoads(NotificationTarget(data, site, lower).url, site, isTopFrame, lower, decode);
  }

  /** What it sends to the browser is an https link that is not one of those pages. */
  lemma OutsideIsElsewhere(data: Option<string>, site: string, lower: string -> string)
    requires NotificationTarget(data, site, lower).Outside?
    ensures var url := NotificationTarget(data, site, lower).url;
            var parsed := ParseUrl(url, lower);
            && data.Some? && url == Trim(data.value)
            && parsed.Some? && parsed.value.scheme == "https" && parsed.value.host != ""
            && !IsSitePage(url, site, lower)
  {
    hide ParseUrl, IsExcluded;
  }

  /** An in-site path never leaves the site: it opens under the site's origin unless its own path is an excluded one. */
  lemma InSitePath(value: string, site: string, scheme: string, host: string, port: string, lower: string -> string)
    requires IsSiteOrigin(site, scheme, host, port, lower)
    requires Trim(value) == value && StartsWith(value, "/") && !StartsWith(value, "//") && !Has(value, '\\')
    ensures NotificationTarget(Some(value), site, lower)
         == Open(if IsExcluded(Before(Before(value, '#'), '?')) then Centre(site) else site + value)
  {
    hide Canonical, HostPort, ParseUrl, IsExcluded, Trim, Centre;
    CanonicalParts(scheme, host, port);
    assert TrimEnd(value) == value by { TrimmedAlready(value); }
    ParseUnder(scheme, host, port, value, lower);
    SlashedSame(value);
    PathStart(value);
    assert site + value == scheme + "://" + HostPort(host, port) + value;
  }

  lemma TrimmedAlready(value: string)
    requires Trim(value) == value && value != "" && value[0] == '/'
    ensures TrimEnd(value) == value
  {
  }

  lemma PathStart(value: string)
    requires StartsWith(value, "/")
    ensures Before(Before(value, '#'), '?') != ""
  {
    assert value[0] == '/';
  }

  /* ---- where every notification goes ---- */

  /** A page of the site that may be shown: http or https, of the site's origin, and in none of three directories. */
  predicate Shown(url: string, site: string, lower: string -> string) {
    var parsed := ParseUrl(url, lower);
    && parsed.Some? && (parsed.value.scheme == "http" || parsed.value.scheme == "https")
    && OriginOf(parsed.value) == site
    && !StartsWith(parsed.value.path, "/api/") && !StartsWith(parsed.value.path, "/mobile-auth/")
    && !StartsWith(parsed.value.path, "/.well-known/")
  }

  lemma ShownExactly(url: string, site: string, lower: string -> string)
    ensures SitePageUrl(Some(url), site, lower) == if Shown(url, site, lower) then Some(url) else None
  {
    NothingInEmpty(lower);
    hide ParseUrl, OriginOf;
    if ParseUrl(url, lower).Some? {
      ExcludedExactly(ParseUrl(url, lower).value.path);
    }
    hide IsExcluded, StartsWith;
  }

  lemma NothingInEmpty(lower: string -> string)
    ensures ParseUrl("", lower).None?
  {
  }

  lemma ExcludedExactly(path: string)
    ensures IsExcluded(path) <==>
              StartsWith(path, "/api/") || StartsWith(path, "/mobile-auth/") || StartsWith(path, "/.well-known/")
  {
    assert forall prefix :: prefix in EXCLUDED_PREFIXES ==> prefix in ["/api/", "/mobile-auth/", "/.well-known/"];
    assert "/api/" in EXCLUDED_PREFIXES && "/mobile-auth/" in EXCLUDED_PREFIXES && "/.well-known/" in EXCLUDED_PREFIXES;
    hide EXCLUDED_PREFIXES, StartsWith;
  }

  /**
   A notification opens the page of the site that its path or its full link names, an https link to another place goes
   to the browser, and everything else opens the notification centre.
   */
  lemma TargetExactly(data: Option<string>, site: string, lower: string -> string)
    ensures var value := if data.Some? then Trim(data.value) else "";
            var inSite := StartsWith(value, "/") && !StartsWith(value, "//") && '\\' !in value;
            var url := if inSite then site + value else value;
            var parsed := ParseUrl(value, lower);
            var secure := parsed.Some? && parsed.value.scheme == "https" && parsed.value.host != "";
            NotificationTarget(data, site, lower) ==
              if value != "" && Shown(url, site, lower) then Open(url)
              else if value != "" && !inSite && secure then Outside(value)
              else Open(site + "/notifications")
  {
    if data.Some? {
      var value := Trim(data.value);
      ShownExactly(site + value, site, lower);
      ShownExactly(value, site, lower);
    }
    hide ParseUrl, Shown, SitePageUrl, Trim, StartsWith;
  }
}
