/**
 Where a link may go (mobile/src/navigation-policy.ts). Unicode lower-casing and percent-decoding are parameters.
 */
module Navigation {
  import opened Text
  import opened Url

  datatype Decision =
    | Load
    | Block
    | GoogleSignIn
    | OpenOutside(url: string, fallbackUrl: Option<string>, storePackage: Option<string>)

  const BLOCKED_SCHEMES: set<string> := {"file", "content", "gokesari", "gokesari-preview"}
  const WEBVIEW_SCHEMES: set<string> := {"about", "data", "blob", "javascript"}
  const OWN_APP_HOSTS: set<string> :=
    {"wa.me", "api.whatsapp.com", "chat.whatsapp.com", "play.google.com", "apps.apple.com", "itunes.apple.com"}
  const GOOGLE_SIGN_IN_HOST := "accounts.google.com"
  const PAYMENT_HOST_SUFFIXES: set<string> := {"cashfree.com", "razorpay.com", "phonepe.com"}

  /* ---- hosts ---- */

  /** `google.` and then only small letters and dots, at least one of them. */
  predicate IsGoogleCountryHost(host: string) {
    StartsWith(host, "google.") && |host| > 7 && forall i :: 7 <= i < |host| ==> 'a' <= host[i] <= 'z' || host[i] == '.'
  }

  predicate IsGoogleMaps(u: ParsedUrl) {
    var host := if StartsWith(u.host, "www.") then u.host[4..] else u.host;
    || host == "maps.google.com" || host == "maps.app.goo.gl" || host == "maps.apple.com"
    || ((IsGoogleCountryHost(host) || host == "goo.gl") && StartsWith(u.path, "/maps"))
  }

  predicate BelongsInOwnApp(u: ParsedUrl) {
    IsGoogleMaps(u) || u.host in OWN_APP_HOSTS
  }

  predicate IsPaymentHost(host: string, lower: string -> string) {
    exists suffix :: suffix in PAYMENT_HOST_SUFFIXES && (lower(host) == suffix || EndsWith(lower(host), "." + suffix))
  }

  /* ---- Android intent links ---- */

  datatype Intent = Intent(url: Option<string>, packageName: Option<string>, fallbackUrl: Option<string>)

  predicate IsLineEnd(c: char) {
    c == '\n' || c == '\r' || c == '\U{2028}' || c == '\U{2029}'
  }

  predicate IsPackageChar(c: char) {
    IsAlpha(c) || IsDigit(c) || c == '_' || c == '.'
  }

  /** The fields of `key=value` parts, the last of a repeated key; a part without a key is skipped. */
  function Fields(parts: seq<string>): map<string, string> {
    if parts == [] then map[]
    else
      var n := |parts| - 1;
      var eq := IndexOf(parts[n], '=');
      if eq > 0 then Fields(parts[..n])[parts[n][..eq] := parts[n][eq + 1..]] else Fields(parts[..n])
  }

  lemma FieldsStep(parts: seq<string>, i: nat)
    requires i < |parts|
    ensures Fields(parts[..i + 1]) == var eq := IndexOf(parts[i], '=');
            if eq > 0 then Fields(parts[..i])[parts[i][..eq] := parts[i][eq + 1..]] else Fields(parts[..i])
  {
    assert parts[..i + 1][..i] == parts[..i];
  }

  method ReadFields(extras: string) returns (fields: map<string, string>)
    ensures fields == Fields(Split(extras, ';'))
  {
    var parts := Split(extras, ';');
    assert Fields(parts[..0]) == map[];
    hide Fields, Split, IndexOf;
    fields := map[];
    for i := 0 to |parts|
      invariant fields == Fields(parts[..i])
    {
      FieldsStep(parts, i);
      var part := parts[i];
      var eq := IndexOf(part, '=');
      if eq > 0 {
        fields := fields[part[..eq] := part[eq + 1..]];
      }
    }
    assert parts[..|parts|] == parts;
  }

  /** `intent:[//]target#Intent;extras`, letter case ignored: the target and the extras. */
  function IntentParts(raw: string): Option<(string, string)> {
    var text := Trim(raw);
    var hash := IndexOf(text, '#');
    if hash < 7 || AsciiLower(text[..7]) != "intent:" then None
    else
      var tail := text[hash + 1..];
      if |tail| < 7 || AsciiLower(tail[..7]) != "intent;" || exists i :: 7 <= i < |tail| && IsLineEnd(tail[i]) then None
      else
        var target := text[7..hash];
        Some((if StartsWith(target, "//") then target[2..] else target, tail[7..]))
  }

  function Field(fields: map<string, string>, key: string): Option<string> {
    if key in fields then Some(fields[key]) else None
  }

  function IntentOf(target: string, fields: map<string, string>, lower: string -> string,
      decode: string -> Option<string>): Intent
  {
    var scheme := Field(fields, "scheme");
    var package := Field(fields, "package");
    var written := Field(fields, "S.browser_fallback_url");
    var fallback := if written.Some? && written.value != "" then decode(written.value) else None;
    var parsed := if fallback.Some? && fallback.value != "" then ParseUrl(fallback.value, lower) else None;
    Intent(
      if scheme.Some? && IsScheme(scheme.value) then Some(scheme.value + "://" + target) else None,
      if package.Some? && package.value != "" && forall i :: 0 <= i < |package.value| ==>
          IsPackageChar(package.value[i]) then package else None,
      if parsed.Some? && Special(parsed.value.scheme) then fallback else None)
  }

  function ParseAndroidIntentUrl(raw: string, lower: string -> string, decode: string -> Option<string>): Option<Intent>
  {
    var (target, extras) :- IntentParts(raw);
    Some(IntentOf(target, Fields(Split(extras, ';')), lower, decode))
  }

  /** Package names need no percent-encoding: IsPackageChar holds of all their characters. */
  function PlayStoreUrl(packageName: string): string {
    "market://details?id=" + packageName
  }

  /* ---- decisions ---- */

  function DecideIntent(raw: string, lower: string -> string, decode: string -> Option<string>): Decision {
    match ParseAndroidIntentUrl(raw, lower, decode)
    case None => Block
    case Some(Intent(Some(url), package, fallback)) => OpenOutside(url, fallback, package)
    case Some(Intent(None, package, fallback)) =>
      if fallback.Some? then OpenOutside(fallback.value, None, None)
      else if package.Some? then OpenOutside(PlayStoreUrl(package.value), None, None)
      else Block
  }

  function DecideNavigation(raw: string, site: string, isTopFrame: bool, lower: string -> string,
      decode: string -> Option<string>): Decision
  {
    match ParseUrl(raw, lower)
    case None => Block
    case Some(u) =>
      if u.scheme in WEBVIEW_SCHEMES then Load
      else if u.scheme in BLOCKED_SCHEMES then Block
      else if Special(u.scheme) then
        if OriginOf(u) == site then Load
        else if !isTopFrame then Load
        else if u.host == GOOGLE_SIGN_IN_HOST then GoogleSignIn
        else if BelongsInOwnApp(u) then OpenOutside(raw, None, None)
        else Load
      else if u.scheme == "intent" then DecideIntent(raw, lower, decode)
      else OpenOutside(raw, None, None)
  }

  function DecideNewWindow(raw: string, site: string, lower: string -> string,
      decode: string -> Option<string>): Decision
  {
    var decision := DecideNavigation(raw, site, true, lower, decode);
    if decision != Load then decision
    else
      match ParseUrl(raw, lower)
      case None => Block
      case Some(u) =>
        if OriginOf(u) == site then decision
        else if u.scheme == "https" && IsPaymentHost(u.host, lower) then decision
        else if Special(u.scheme) then OpenOutside(raw, None, None)
        else Block
  }

  /* ---- what stays in the app ---- */

  lemma WebViewSchemesAreNotHttp(scheme: string)
    requires scheme in WEBVIEW_SCHEMES
    ensures scheme != "" && scheme[0] != 'h' && !Special(scheme)
  {
    assert scheme in ["about", "data", "blob", "javascript"];
  }

  lemma SpecialIsOrdinary(scheme: string)
    requires Special(scheme)
    ensures scheme !in WEBVIEW_SCHEMES && scheme !in BLOCKED_SCHEMES && scheme[0] == 'h'
  {
  }

  lemma SuffixDot(host: string, suffix: string)
    requires EndsWith(host, "." + suffix)
    ensures EndsWith(host, suffix)
  {
    assert ("." + suffix)[1..] == suffix;
  }

  lemma SixthFromEnd(suffix: string)
    requires suffix in PAYMENT_HOST_SUFFIXES
    ensures |suffix| > 6 && suffix[|suffix| - 6] != 'l'
  {
    assert suffix in ["cashfree.com", "razorpay.com", "phonepe.com"];
  }

  lemma SignInHost()
    ensures |GOOGLE_SIGN_IN_HOST| == 19 && GOOGLE_SIGN_IN_HOST[13] == 'l'
  {
  }

  /** No payment host is the sign-in host. */
  lemma PaymentIsNotSignIn(host: string, lower: string -> string)
    requires lower(host) == host && IsPaymentHost(host, lower)
    ensures host != GOOGLE_SIGN_IN_HOST
  {
    var suffix :| suffix in PAYMENT_HOST_SUFFIXES && (lower(host) == suffix || EndsWith(lower(host), "." + suffix));
    hide PAYMENT_HOST_SUFFIXES, GOOGLE_SIGN_IN_HOST;
    if host != suffix {
      SuffixDot(host, suffix);
    }
    SixthFromEnd(suffix);
    assert host[|host| - 6] == host[|host| - |suffix|..][|suffix| - 6] == suffix[|suffix| - 6];
    SignInHost();
  }

  /**
   A link that opens a new window stays in the app exactly when it is one of the site's own pages, or an https page
   of a payment host that is not also taken for an app's own page.
   */
  lemma NewWindowExactly(raw: string, site: string, lower: string -> string, decode: string -> Option<string>)
    requires LowerLaws(lower) && site != "" && site[0] == 'h'
    ensures DecideNewWindow(raw, site, lower, decode) == Load <==>
              var parsed := ParseUrl(raw, lower);
              && parsed.Some? && Special(parsed.value.scheme)
              && (|| OriginOf(parsed.value) == site
                  || (parsed.value.scheme == "https" && IsPaymentHost(parsed.value.host, lower)
                      && !BelongsInOwnApp(parsed.value)))
  {
    hide ParseUrl, LowerLaws, IsPaymentHost, BelongsInOwnApp, DecideIntent;
    var parsed := ParseUrl(raw, lower);
    if parsed.Some? {
      var u := parsed.value;
      if u.scheme in WEBVIEW_SCHEMES {
        WebViewSchemesAreNotHttp(u.scheme);
      } else if Special(u.scheme) {
        SpecialIsOrdinary(u.scheme);
        ParsedHost(raw, lower);
        if IsPaymentHost(u.host, lower) {
          PaymentIsNotSignIn(u.host, lower);
        }
      }
    }
  }

  lemma GatewayNames(suffix: string)
    requires suffix in PAYMENT_HOST_SUFFIXES
    ensures suffix != "" && suffix[|suffix| - 1] != '.'
    ensures forall i :: 0 <= i < |suffix| ==> 'a' <= suffix[i] <= 'z' || suffix[i] == '.'
  {
    assert suffix in ["cashfree.com", "razorpay.com", "phonepe.com"];
  }

  lemma GatewayLookalike(suffix: string, lower: string -> string)
    requires suffix in PAYMENT_HOST_SUFFIXES && lower("google." + suffix) == "google." + suffix
    ensures var u := ParsedUrl("https", "google." + suffix, "", "/maps", "", "");
            IsPaymentHost(u.host, lower) && BelongsInOwnApp(u)
  {
    hide IsGoogleCountryHost, BelongsInOwnApp, IsPaymentHost;
    assert "google." + suffix == "google" + ("." + suffix);
    UnderGateway("google", suffix, lower);
    GatewayNames(suffix);
    GoogleLookalike(suffix);
    MapsPath(ParsedUrl("https", "google." + suffix, "", "/maps", "", ""));
  }

  lemma LookalikeParses(suffix: string, lower: string -> string)
    requires suffix in PAYMENT_HOST_SUFFIXES && lower("google." + suffix) == "google." + suffix
    ensures ParseUrl("https://google." + suffix + "/maps", lower)
            == Some(ParsedUrl("https", "google." + suffix, "", "/maps", "", ""))
  {
    hide IsSpace, Canonical, Plain, PAYMENT_HOST_SUFFIXES, ParseUrl, TrimEnd, EndsAuthority, Slashed, Before, Behind;
    var host := "google." + suffix;
    GatewayNames(suffix);
    LookalikeIsPlain(suffix);
    MapsTail();
    ParseUnder("https", host, "", "/maps", lower);
    assert HostPort(host, "") == host;
    assert "https" + "://" + host + "/maps" == "https://google." + suffix + "/maps";
  }

  lemma LookalikeIsPlain(suffix: string)
    requires suffix != "" && forall i :: 0 <= i < |suffix| ==> 'a' <= suffix[i] <= 'z' || suffix[i] == '.'
    requires suffix[|suffix| - 1] != '.'
    ensures Canonical("https", "google." + suffix, "")
  {
    var host := "google." + suffix;
    forall i | 0 <= i < |host| ensures 'a' <= host[i] <= 'z' || host[i] == '.' {
      assert i >= 7 ==> host[i] == suffix[i - 7];
    }
    assert ':' !in host;
    hide IsSpace;
    LetterIsNoSpace(host[|host| - 1]);
  }

  lemma LetterIsNoSpace(c: char)
    requires 'a' <= c <= 'z'
    ensures !IsSpace(c)
  {
  }

  lemma MapsTail()
    ensures EndsAuthority("/maps") && TrimEnd("/maps") == "/maps" && Slashed("/maps") == "/maps"
    ensures Before(Before("/maps", '#'), '?') == "/maps" && Behind(Before("/maps", '#'), '?') == ""
            && Behind("/maps", '#') == ""
  {
    LetterIsNoSpace("/maps"[4]);
  }

  lemma OwnAppPageSentOut(raw: string, u: ParsedUrl, site: string, lower: string -> string,
      decode: string -> Option<string>)
    requires ParseUrl(raw, lower) == Some(u) && Special(u.scheme)
    requires OriginOf(u) != site && u.host != GOOGLE_SIGN_IN_HOST && BelongsInOwnApp(u)
    ensures DecideNewWindow(raw, site, lower, decode) == OpenOutside(raw, None, None)
  {
    SpecialIsOrdinary(u.scheme);
    hide ParseUrl, BelongsInOwnApp, OriginOf, Special, WEBVIEW_SCHEMES, BLOCKED_SCHEMES, GOOGLE_SIGN_IN_HOST;
    hide IsPaymentHost, DecideIntent;
  }

  lemma OriginOfHttps(u: ParsedUrl)
    requires u.scheme == "https" && u.host != "" && u.port == ""
    ensures OriginOf(u) == "https://" + u.host && Special(u.scheme)
  {
    assert u.host + "" == u.host;
  }

  /**
   The two do meet: a page of a payment gateway's host that starts with `google.` is sent out when its path is a
   map's.
   */
  lemma PaymentPageSentOut(suffix: string, site: string, lower: string -> string, decode: string -> Option<string>)
    requires suffix in PAYMENT_HOST_SUFFIXES && lower("google." + suffix) == "google." + suffix
    requires site != "https://" + ("google." + suffix)
    ensures var raw := "https://google." + suffix + "/maps";
            && ParseUrl(raw, lower).Some? && ParseUrl(raw, lower).value.scheme == "https"
            && IsPaymentHost(ParseUrl(raw, lower).value.host, lower)
            && DecideNewWindow(raw, site, lower, decode) == OpenOutside(raw, None, None)
  {
    hide ParseUrl, IsPaymentHost, BelongsInOwnApp, OriginOf, Special, PAYMENT_HOST_SUFFIXES, GOOGLE_SIGN_IN_HOST;
    hide DecideNewWindow;
    var host := "google." + suffix;
    assert host != "";
    var u := ParsedUrl("https", host, "", "/maps", "", "");
    LookalikeParses(suffix, lower);
    GatewayLookalike(suffix, lower);
    OriginOfHttps(u);
    PaymentIsNotSignIn(host, lower);
    OwnAppPageSentOut("https://google." + suffix + "/maps", u, site, lower, decode);
  }

  lemma UnderGateway(name: string, suffix: string, lower: string -> string)
    requires suffix in PAYMENT_HOST_SUFFIXES && lower(name + ("." + suffix)) == name + ("." + suffix)
    ensures IsPaymentHost(name + ("." + suffix), lower)
  {
    assert (name + ("." + suffix))[|name|..] == "." + suffix;
  }

  lemma GoogleLookalike(rest: string)
    requires rest != "" && forall i :: 0 <= i < |rest| ==> 'a' <= rest[i] <= 'z' || rest[i] == '.'
    ensures IsGoogleCountryHost("google." + rest) && ("google." + rest)[0] == 'g'
  {
    assert forall i :: 7 <= i < |"google." + rest| ==> ("google." + rest)[i] == rest[i - 7];
  }

  lemma MapsPath(u: ParsedUrl)
    requires IsGoogleCountryHost(u.host) && u.host != "" && u.host[0] == 'g' && u.path == "/maps"
    ensures BelongsInOwnApp(u)
  {
    assert "www."[0] == 'w';
  }

  /** The site's own pages load in place, in every frame. */
  lemma OwnPageLoads(raw: string, site: string, isTopFrame: bool, lower: string -> string,
      decode: string -> Option<string>)
    requires ParseUrl(raw, lower).Some? && Special(ParseUrl(raw, lower).value.scheme)
             && OriginOf(ParseUrl(raw, lower).value) == site
    ensures DecideNavigation(raw, site, isTopFrame, lower, decode) == Load
    ensures DecideNewWindow(raw, site, lower, decode) == Load
  {
    SpecialIsOrdinary(ParseUrl(raw, lower).value.scheme);
  }

  /* ---- intent links ---- */

  function PrintIntent(scheme: string, package: string, target: string): string {
    "intent://" + target + "#Intent;" + Join(["scheme=" + scheme, "package=" + package, "end"], ';')
  }

  lemma IntentPartsOf(target: string, extras: string)
    requires '#' !in target && extras != "" && !IsSpace(extras[|extras| - 1])
    requires forall i :: 0 <= i < |extras| ==> !IsLineEnd(extras[i])
    ensures IntentParts("intent://" + target + "#Intent;" + extras) == Some((target, extras))
  {
    hide IsSpace, IsLineEnd;
    var raw := "intent://" + target + "#Intent;" + extras;
    assert raw == ("intent://" + target) + ['#'] + ("Intent;" + extras);
    NotSpaces();
    assert raw[0] == 'i' && raw[|raw| - 1] == extras[|extras| - 1];
    TrimEdges(raw);
    FirstIndex("intent://" + target, '#', "Intent;" + extras);
    assert raw[..7] == "intent:" && raw[7..9 + |target|] == "//" + target;
    assert raw[10 + |target|..] == "Intent;" + extras;
    assert ("Intent;" + extras)[..7] == "Intent;" && ("Intent;" + extras)[7..] == extras;
    LowerIntent();
    assert forall i :: 7 <= i < |"Intent;" + extras| ==> ("Intent;" + extras)[i] == extras[i - 7];
    assert ("//" + target)[2..] == target;
  }

  lemma NotSpaces()
    ensures !IsSpace('i')
  {
  }

  lemma LowerIntent()
    ensures AsciiLower("intent:") == "intent:" && AsciiLower("Intent;") == "intent;"
  {
  }

  lemma PlainField(key: string, value: string)
    requires '=' !in key && key != ""
    ensures IndexOf(key + "=" + value, '=') == |key|
    ensures (key + "=" + value)[..|key|] == key && (key + "=" + value)[|key| + 1..] == value
  {
    assert key + "=" + value == key + ['='] + value;
    FirstIndex(key, '=', value);
  }

  lemma SafeChars(s: string)
    requires forall i :: 0 <= i < |s| ==> IsSchemeChar(s[i]) || IsPackageChar(s[i])
    ensures ';' !in s && forall i :: 0 <= i < |s| ==> !IsLineEnd(s[i])
  {
  }

  lemma FieldAdded(parts: seq<string>, key: string, value: string)
    requires '=' !in key && key != ""
    ensures Fields(parts + [key + "=" + value]) == Fields(parts)[key := value]
  {
    PlainField(key, value);
    var all := parts + [key + "=" + value];
    assert all[..|all| - 1] == parts;
  }

  lemma FieldsOfIntent(scheme: string, package: string)
    ensures Fields(["scheme=" + scheme, "package=" + package, "end"]) == map["scheme" := scheme, "package" := package]
  {
    var first := [] + ["scheme" + "=" + scheme];
    var second := first + ["package" + "=" + package];
    FieldAdded([], "scheme", scheme);
    FieldAdded(first, "package", package);
    var all := second + ["end"];
    assert "scheme" + "=" + scheme == "scheme=" + scheme && "package" + "=" + package == "package=" + package;
    assert all == ["scheme=" + scheme, "package=" + package, "end"];
    assert all[..2] == second && IndexOf("end", '=') < 0;
    hide IndexOf;
    assert Fields(all) == Fields(second);
  }

  lemma JoinThree(a: string, b: string, c: string)
    ensures Join([a, b, c], ';') == a + ";" + b + ";" + c
  {
    assert [a, b, c][1..] == [b, c] && [b, c][1..] == [c];
    assert Join([b, c], ';') == b + ";" + c;
  }

  lemma PartsAreSafe(scheme: string, package: string)
    requires IsScheme(scheme) && forall i :: 0 <= i < |package| ==> IsPackageChar(package[i])
    ensures forall c :: c in "scheme=" + scheme || c in "package=" + package ==> c != ';' && !IsLineEnd(c)
  {
    assert forall i :: 0 <= i < |scheme| ==> IsSchemeChar(scheme[i]);
    SafeChars(scheme);
    SafeChars(package);
  }

  lemma ExtrasShape(scheme: string, package: string)
    requires IsScheme(scheme) && forall i :: 0 <= i < |package| ==> IsPackageChar(package[i])
    ensures var extras := Join(["scheme=" + scheme, "package=" + package, "end"], ';');
            && extras != "" && extras[|extras| - 1] == 'd'
            && (forall i :: 0 <= i < |extras| ==> !IsLineEnd(extras[i]))
            && Split(extras, ';') == ["scheme=" + scheme, "package=" + package, "end"]
  {
    hide IsScheme, IsPackageChar, Join, Split;
    var a, b := "scheme=" + scheme, "package=" + package;
    PartsAreSafe(scheme, package);
    JoinThree(a, b, "end");
    SplitJoin([a, b, "end"], ';');
    var extras := a + ";" + b + ";" + "end";
    forall i | 0 <= i < |extras| ensures !IsLineEnd(extras[i]) {
      assert extras[i] in a || extras[i] in b || extras[i] in ";end";
    }
  }

  /** A link that names an app's scheme and package is rebuilt for them, with the target it carries. */
  lemma IntentRoundTrip(scheme: string, package: string, target: string, lower: string -> string,
      decode: string -> Option<string>)
    requires IsScheme(scheme) && '#' !in target
    requires package != "" && forall i :: 0 <= i < |package| ==> IsPackageChar(package[i])
    ensures ParseAndroidIntentUrl(PrintIntent(scheme, package, target), lower, decode)
         == Some(Intent(Some(scheme + "://" + target), Some(package), None))
  {
    hide IntentParts, Fields, Split, Join, IsLineEnd, IsSpace;
    var extras := Join(["scheme=" + scheme, "package=" + package, "end"], ';');
    ExtrasShape(scheme, package);
    NotSpaceD();
    IntentPartsOf(target, extras);
    FieldsOfIntent(scheme, package);
  }

  lemma NotSpaceD()
    ensures !IsSpace('d')
  {
  }
}
