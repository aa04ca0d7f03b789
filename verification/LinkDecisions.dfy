/**
 Where each link goes (mobile/src/navigation-policy.ts), said outright: the hosts, the schemes and the form of an
 Android intent link are spelled out here, and each decision is taken exactly when this says so.
 */
module LinkDecisions {
  import opened Text
  import opened Url
  import opened Navigation

  /* ---- hosts ---- */

  predicate IsLetterOrDot(c: char) {
    'a' <= c <= 'z' || c == '.'
  }

  /** A map of Google's or Apple's, without a leading `www.`. */
  ghost predicate MapsName(name: string, path: string) {
    || name == "maps.google.com" || name == "maps.app.goo.gl" || name == "maps.apple.com"
    || ((exists more :: path == "/maps" + more)
        && (name == "goo.gl"
            || exists country :: name == "google." + country && country != "" && forall c :: c in country ==>
               IsLetterOrDot(c)))
  }

  /** Hosts that have an app of their own. */
  ghost predicate OwnApp(host: string, path: string) {
    || host == "wa.me" || host == "api.whatsapp.com" || host == "chat.whatsapp.com" || host == "play.google.com"
    || host == "apps.apple.com" || host == "itunes.apple.com"
    || MapsName(host, path) || exists name :: host == "www." + name && MapsName(name, path)
  }

  lemma Prefixed(s: string, prefix: string)
    ensures StartsWith(s, prefix) <==> exists rest :: s == prefix + rest
    ensures StartsWith(s, prefix) ==> s == prefix + s[|prefix|..]
  {
    if StartsWith(s, prefix) {
      assert s == prefix + s[|prefix|..];
    }
  }

  lemma CountryHost(name: string)
    ensures IsGoogleCountryHost(name) <==>
              exists country :: name == "google." + country && country != "" && forall c :: c in country ==>
                  IsLetterOrDot(c)
  {
    Prefixed(name, "google.");
    if IsGoogleCountryHost(name) {
      var country := name[7..];
      assert name == "google." + country && country != "";
      forall c | c in country ensures IsLetterOrDot(c) {
        var i :| 0 <= i < |country| && country[i] == c;
        assert name[i + 7] == c;
      }
    }
    if country :| name == "google." + country && country != "" && forall c :: c in country ==> IsLetterOrDot(c) {
      forall i | 7 <= i < |name| ensures 'a' <= name[i] <= 'z' || name[i] == '.' {
        assert name[i] == country[i - 7];
        assert IsLetterOrDot(country[i - 7]);
      }
    }
  }

  lemma MapsExactly(name: string, path: string)
    ensures MapsName(name, path) <==>
              || name == "maps.google.com" || name == "maps.app.goo.gl" || name == "maps.apple.com"
              || ((IsGoogleCountryHost(name) || name == "goo.gl") && StartsWith(path, "/maps"))
  {
    hide IsGoogleCountryHost;
    CountryHost(name);
    Prefixed(path, "/maps");
  }

  /** No maps host starts with `www.`. */
  lemma MapsHasNoPrefix(name: string, path: string)
    requires MapsName(name, path)
    ensures !StartsWith(name, "www.")
  {
    assert name[0] == 'm' || name[0] == 'g';
    assert "www."[0] == 'w';
  }

  lemma OwnAppExactly(u: ParsedUrl)
    ensures BelongsInOwnApp(u) <==> OwnApp(u.host, u.path)
  {
    var host := if StartsWith(u.host, "www.") then u.host[4..] else u.host;
    MapsExactly(host, u.path);
    Prefixed(u.host, "www.");
    hide MapsName, IsGoogleCountryHost;
    assert IsGoogleMaps(u) <==> MapsName(host, u.path);
    hide IsGoogleMaps;
    if StartsWith(u.host, "www.") {
      if MapsName(u.host, u.path) {
        MapsHasNoPrefix(u.host, u.path);
      }
      assert forall name :: u.host == "www." + name ==> name == host;
    }
    OwnHosts(u.host);
    hide OWN_APP_HOSTS;
  }

  lemma OwnHosts(host: string)
    ensures host in OWN_APP_HOSTS <==>
              || host == "wa.me" || host == "api.whatsapp.com" || host == "chat.whatsapp.com"
              || host == "play.google.com" || host == "apps.apple.com" || host == "itunes.apple.com"
  {
  }

  /** A payment gateway's host, or one under it. */
  ghost predicate PaymentName(name: string) {
    || name == "cashfree.com" || name == "razorpay.com" || name == "phonepe.com"
    || exists sub :: name == sub + ".cashfree.com" || name == sub + ".razorpay.com" || name == sub + ".phonepe.com"
  }

  lemma Suffixed(s: string, suffix: string)
    ensures EndsWith(s, suffix) <==> exists front :: s == front + suffix
  {
    if EndsWith(s, suffix) {
      assert s == s[..|s| - |suffix|] + suffix;
    }
    if front :| s == front + suffix {
      assert s[|s| - |suffix|..] == suffix;
    }
  }

  lemma PaymentExactly(host: string, lower: string -> string)
    ensures IsPaymentHost(host, lower) <==> PaymentName(lower(host))
  {
    var name := lower(host);
    Suffixed(name, "." + "cashfree.com");
    Suffixed(name, "." + "razorpay.com");
    Suffixed(name, "." + "phonepe.com");
    assert "." + "cashfree.com" == ".cashfree.com" && "." + "razorpay.com" == ".razorpay.com"
           && "." + "phonepe.com" == ".phonepe.com";
    assert "cashfree.com" in PAYMENT_HOST_SUFFIXES && "razorpay.com" in PAYMENT_HOST_SUFFIXES
           && "phonepe.com" in PAYMENT_HOST_SUFFIXES;
    assert forall s :: s in PAYMENT_HOST_SUFFIXES ==> s == "cashfree.com" || s == "razorpay.com" || s == "phonepe.com";
    hide PAYMENT_HOST_SUFFIXES, EndsWith;
  }

  /* ---- http and https ---- */

  predicate IsWeb(scheme: string) {
    scheme == "http" || scheme == "https"
  }

  predicate InWebView(scheme: string) {
    scheme == "about" || scheme == "data" || scheme == "blob" || scheme == "javascript"
  }

  predicate IsBlocked(scheme: string) {
    scheme == "file" || scheme == "content" || scheme == "gokesari" || scheme == "gokesari-preview"
  }

  lemma SchemesApart(scheme: string)
    ensures scheme in WEBVIEW_SCHEMES <==> InWebView(scheme)
    ensures scheme in BLOCKED_SCHEMES <==> IsBlocked(scheme)
    ensures Special(scheme) <==> IsWeb(scheme)
    ensures InWebView(scheme) ==> !IsBlocked(scheme) && !IsWeb(scheme)
    ensures IsBlocked(scheme) ==> !IsWeb(scheme)
    ensures scheme == "intent" ==> !InWebView(scheme) && !IsBlocked(scheme) && !IsWeb(scheme)
  {
    assert InWebView(scheme) ==> scheme != "" && scheme[0] in "adbj" && scheme[0] !in "fcghi";
    assert IsBlocked(scheme) ==> scheme != "" && scheme[0] in "fcg" && scheme[0] !in "hi";
    assert IsWeb(scheme) ==> scheme != "" && scheme[0] == 'h';
    assert scheme == "intent" ==> scheme[0] == 'i';
  }

  /** A page that is not the site's, opened in the whole window. */
  predicate ElsewhereOnTop(u: ParsedUrl, site: string, isTopFrame: bool) {
    IsWeb(u.scheme) && OriginOf(u) != site && isTopFrame
  }

  /** The page loads in place exactly when this holds of its URL. */
  ghost predicate Loads(u: ParsedUrl, site: string, isTopFrame: bool) {
    || InWebView(u.scheme)
    || (IsWeb(u.scheme)
        && (ElsewhereOnTop(u, site, isTopFrame) ==> u.host != "accounts.google.com" && !OwnApp(u.host, u.path)))
  }

  lemma LoadsExactly(raw: string, site: string, isTopFrame: bool, lower: string -> string,
      decode: string -> Option<string>)
    ensures DecideNavigation(raw, site, isTopFrame, lower, decode) == Load <==>
              ParseUrl(raw, lower).Some? && Loads(ParseUrl(raw, lower).value, site, isTopFrame)
  {
    hide ParseUrl, OwnApp, BelongsInOwnApp, IsScheme, ParseAndroidIntentUrl, OriginOf;
    hide WEBVIEW_SCHEMES, BLOCKED_SCHEMES, Special, InWebView, IsBlocked, IsWeb;
    if ParseUrl(raw, lower).Some? {
      var u := ParseUrl(raw, lower).value;
      SchemesApart(u.scheme);
      OwnAppExactly(u);
    }
  }

  lemma SignsInExactly(raw: string, site: string, isTopFrame: bool, lower: string -> string,
      decode: string -> Option<string>)
    ensures DecideNavigation(raw, site, isTopFrame, lower, decode) == GoogleSignIn <==>
              && ParseUrl(raw, lower).Some?
              && ElsewhereOnTop(ParseUrl(raw, lower).value, site, isTopFrame)
              && ParseUrl(raw, lower).value.host == "accounts.google.com"
  {
    hide ParseUrl, BelongsInOwnApp, ParseAndroidIntentUrl, OriginOf;
    hide WEBVIEW_SCHEMES, BLOCKED_SCHEMES, Special, InWebView, IsBlocked, IsWeb;
    if ParseUrl(raw, lower).Some? {
      SchemesApart(ParseUrl(raw, lower).value.scheme);
    }
  }

  /** Nothing is followed from text that is no URL, from these schemes, and from an intent with nothing to open. */
  lemma BlocksExactly(raw: string, site: string, isTopFrame: bool, lower: string -> string,
      decode: string -> Option<string>)
    ensures DecideNavigation(raw, site, isTopFrame, lower, decode) == Block <==>
              var parsed := ParseUrl(raw, lower);
              || parsed.None? || IsBlocked(parsed.value.scheme)
              || (parsed.value.scheme == "intent" && DecideIntent(raw, lower, decode) == Block)
  {
    hide ParseUrl, BelongsInOwnApp, DecideIntent, OriginOf;
    hide WEBVIEW_SCHEMES, BLOCKED_SCHEMES, Special, InWebView, IsBlocked, IsWeb;
    if ParseUrl(raw, lower).Some? {
      SchemesApart(ParseUrl(raw, lower).value.scheme);
    }
  }

  /** A link goes to another app or the browser as it is: hosts with their own app, and any scheme not named above. */
  ghost predicate GoesOut(u: ParsedUrl, site: string, isTopFrame: bool) {
    || (ElsewhereOnTop(u, site, isTopFrame) && u.host != "accounts.google.com" && OwnApp(u.host, u.path))
    || !(InWebView(u.scheme) || IsBlocked(u.scheme) || IsWeb(u.scheme) || u.scheme == "intent")
  }

  lemma OpensExactly(raw: string, site: string, isTopFrame: bool, lower: string -> string,
      decode: string -> Option<string>)
    requires ParseUrl(raw, lower).Some?
    ensures var u := ParseUrl(raw, lower).value;
            var decision := DecideNavigation(raw, site, isTopFrame, lower, decode);
            && (u.scheme == "intent" ==> decision == DecideIntent(raw, lower, decode))
            && (u.scheme != "intent" ==> (decision.OpenOutside? <==> GoesOut(u, site, isTopFrame)))
            && (u.scheme != "intent" && decision.OpenOutside? ==> decision == OpenOutside(raw, None, None))
  {
    hide ParseUrl, OwnApp, BelongsInOwnApp, DecideIntent, OriginOf;
    hide WEBVIEW_SCHEMES, BLOCKED_SCHEMES, Special, InWebView, IsBlocked, IsWeb;
    var u := ParseUrl(raw, lower).value;
    SchemesApart(u.scheme);
    OwnAppExactly(u);
  }

  /**
   A link that opens a new window goes where it would in the whole window, but that only the site's own pages and
   payment pages load: another page is sent to the browser, and what only a WebView shows is dropped.
   */
  lemma NewWindowOtherwise(raw: string, site: string, lower: string -> string, decode: string -> Option<string>)
    requires site != "" && site[0] == 'h'
    ensures var decision := DecideNewWindow(raw, site, lower, decode);
            var whole := DecideNavigation(raw, site, true, lower, decode);
            if whole != Load then decision == whole
            else
              var u := ParseUrl(raw, lower).value;
              if InWebView(u.scheme) then decision == Block
              else decision == if OriginOf(u) == site || (u.scheme == "https" && PaymentName(lower(u.host))) then Load
                else OpenOutside(raw, None, None)
  {
    LoadsExactly(raw, site, true, lower, decode);
    hide ParseUrl, IsPaymentHost, BelongsInOwnApp, PaymentName, OwnApp, DecideNavigation;
    hide WEBVIEW_SCHEMES, BLOCKED_SCHEMES;
    if DecideNavigation(raw, site, true, lower, decode) == Load {
      var u := ParseUrl(raw, lower).value;
      SchemesApart(u.scheme);
      PaymentExactly(u.host, lower);
      if InWebView(u.scheme) {
        WebViewSchemesAreNotHttp(u.scheme);
      }
    }
  }

  /* ---- intent links ---- */

  /** The form of an intent link: `intent:`, perhaps two slashes, the target, `#Intent;` and one line of extras. */
  ghost predicate IntentForm(text: string, target: string, extras: string) {
    exists head, slashes, mark ::
      && text == head + slashes + target + "#" + mark + extras
      && AsciiLower(head) == "intent:" && AsciiLower(mark) == "intent;" && '#' !in target
      && (slashes == "//" || (slashes == "" && !StartsWith(target, "//"))) && OneLine(extras)
  }

  predicate OneLine(s: string) {
    forall c :: c in s ==> c != '\n' && c != '\r' && c != '\U{2028}' && c != '\U{2029}'
  }

  lemma LowerLength(s: string)
    ensures |AsciiLower(s)| == |s|
  {
  }

  lemma FormIsRead(text: string, head: string, slashes: string, target: string, mark: string, extras: string)
    requires text == head + slashes + target + "#" + mark + extras
    requires AsciiLower(head) == "intent:" && AsciiLower(mark) == "intent;" && '#' !in target
    requires slashes == "//" || (slashes == "" && !StartsWith(target, "//"))
    ensures var hash := IndexOf(text, '#');
            && hash >= 7 && text[..7] == head && text[7..hash] == slashes + target && text[hash + 1..] == mark + extras
            && |mark| == 7
  {
    LowerLength(head);
    LowerLength(mark);
    var before := head + slashes + target;
    HeadHasNoHash(head);
    assert '#' !in before;
    assert text == before + ['#'] + (mark + extras);
    FirstIndex(before, '#', mark + extras);
    assert text[..7] == head;
  }

  lemma HeadHasNoHash(head: string)
    requires AsciiLower(head) == "intent:"
    ensures '#' !in head
  {
    LowerLength(head);
    var name := "intent:";
    assert name == ['i', 'n', 't', 'e', 'n', 't', ':'];
    forall i | 0 <= i < |head| ensures head[i] != '#' {
      assert AsciiLower(head)[i] == name[i];
      assert name[i] in name && name[i] != '#';
    }
  }

  /** An intent link is read exactly when its trimmed text has that form. */
  lemma IntentPartsExactly(raw: string, target: string, extras: string)
    ensures IntentParts(raw) == Some((target, extras)) <==> IntentForm(Trim(raw), target, extras)
  {
    hide Trim, AsciiLower;
    var text := Trim(raw);
    if IntentForm(text, target, extras) {
      FormParts(raw, target, extras);
    }
    if IntentParts(raw) == Some((target, extras)) {
      PartsForm(raw, target, extras);
    }
  }

  lemma ExtrasRead(mark: string, extras: string)
    requires |mark| == 7
    ensures var tail := mark + extras;
            && tail[..7] == mark && tail[7..] == extras
            && ((exists i :: 7 <= i < |tail| && IsLineEnd(tail[i])) <==> !OneLine(extras))
  {
    var tail := mark + extras;
    assert forall i :: 7 <= i < |tail| ==> tail[i] == extras[i - 7];
    hide IsLineEnd;
    forall c ensures IsLineEnd(c) <==> c == '\n' || c == '\r' || c == '\U{2028}' || c == '\U{2029}' {
      NoLineEnd(c);
    }
    if !OneLine(extras) {
      var c :| c in extras && (c == '\n' || c == '\r' || c == '\U{2028}' || c == '\U{2029}');
      var i :| 0 <= i < |extras| && extras[i] == c;
      assert IsLineEnd(tail[i + 7]);
    }
    if i :| 7 <= i < |tail| && IsLineEnd(tail[i]) {
      assert extras[i - 7] in extras;
    }
  }

  lemma FormParts(raw: string, target: string, extras: string)
    requires IntentForm(Trim(raw), target, extras)
    ensures IntentParts(raw) == Some((target, extras))
  {
    hide Trim, AsciiLower, IsLineEnd;
    var text := Trim(raw);
    var head, slashes, mark :|
      && text == head + slashes + target + "#" + mark + extras
      && AsciiLower(head) == "intent:" && AsciiLower(mark) == "intent;" && '#' !in target
      && (slashes == "//" || (slashes == "" && !StartsWith(target, "//"))) && OneLine(extras);
    FormIsRead(text, head, slashes, target, mark, extras);
    ExtrasRead(mark, extras);
    hide OneLine;
    assert ("//" + target)[2..] == target;
    assert "" + target == target;
  }

  lemma Reassembled(text: string, hash: int, slashes: string, target: string, extras: string)
    requires 7 <= hash < |text| && text[hash] == '#' && text[7..hash] == slashes + target
    requires |text[hash + 1..]| >= 7 && text[hash + 1..][7..] == extras
    ensures text == text[..7] + slashes + target + "#" + text[hash + 1..][..7] + extras
  {
    var tail := text[hash + 1..];
    assert tail == tail[..7] + extras;
    assert text == text[..7] + text[7..hash] + "#" + tail;
  }

  lemma PartsForm(raw: string, target: string, extras: string)
    requires IntentParts(raw) == Some((target, extras))
    ensures IntentForm(Trim(raw), target, extras)
  {
    hide Trim, AsciiLower, IsLineEnd, OneLine, IndexOf;
    var text := Trim(raw);
    var hash := IndexOf(text, '#');
    var mark, rest := text[hash + 1..][..7], text[7..hash];
    assert AsciiLower(text[..7]) == "intent:" && AsciiLower(mark) == "intent;";
    var slashes := if StartsWith(rest, "//") then "//" else "";
    ExtrasRead(mark, extras);
    assert mark + extras == text[hash + 1..];
    TargetRead(text, hash, target);
    assert OneLine(extras);
    hide IntentParts;
    Reassembled(text, hash, slashes, target, extras);
    assert slashes == "" ==> !StartsWith(target, "//");
  }

  lemma TargetRead(text: string, hash: int, target: string)
    requires 7 <= hash < |text| && '#' !in text[..hash]
    requires var rest := text[7..hash]; target == if StartsWith(rest, "//") then rest[2..] else rest
    ensures '#' !in target
    ensures var rest := text[7..hash];
            rest == (if StartsWith(rest, "//") then "//" else "") + target
  {
    var rest := text[7..hash];
    forall c | c in target ensures c in text[..hash] {
      var i :| 0 <= i < |target| && target[i] == c;
      var at := if StartsWith(rest, "//") then i + 9 else i + 7;
      assert text[..hash][at] == c;
    }
  }

  lemma NoLineEnd(c: char)
    ensures IsLineEnd(c) <==> c == '\n' || c == '\r' || c == '\U{2028}' || c == '\U{2029}'
  {
  }

  predicate HasKey(part: string, key: string) {
    |part| > |key| && part[..|key| + 1] == key + "="
  }

  /** Part i gives the field this value, and no later part gives it another. */
  predicate GivenLast(parts: seq<string>, key: string, value: string, i: nat) {
    i < |parts| && HasKey(parts[i], key) && parts[i][|key| + 1..] == value && forall j :: i < j < |parts| ==>
        !HasKey(parts[j], key)
  }

  lemma PartOfField(part: string, key: string)
    requires '=' !in key && key != ""
    ensures var eq := IndexOf(part, '=');
            (eq > 0 && part[..eq] == key) <==> HasKey(part, key)
    ensures HasKey(part, key) ==> IndexOf(part, '=') == |key|
  {
    hide HasKey;
    var eq := IndexOf(part, '=');
    if eq > 0 && part[..eq] == key {
      KeyRead(part, key, eq);
    }
    if HasKey(part, key) {
      KeyFound(part, key);
    }
  }

  lemma KeyRead(part: string, key: string, eq: int)
    requires 0 <= eq < |part| && part[eq] == '=' && part[..eq] == key
    ensures HasKey(part, key)
  {
    assert part[..eq + 1] == part[..eq] + [part[eq]];
  }

  lemma KeyFound(part: string, key: string)
    requires '=' !in key && HasKey(part, key)
    ensures IndexOf(part, '=') == |key| && part[..|key|] == key
  {
    assert part == part[..|key| + 1] + part[|key| + 1..];
    assert part == key + ['='] + part[|key| + 1..];
    FirstIndex(key, '=', part[|key| + 1..]);
  }

  /** Of several parts with one key the last one counts; parts without a key are skipped. */
  lemma {:induction false} FieldsExactly(parts: seq<string>, key: string, value: string)
    requires '=' !in key && key != ""
    ensures Field(Fields(parts), key) == Some(value) <==> exists i: nat :: GivenLast(parts, key, value, i)
  {
    hide HasKey, IndexOf;
    if parts != [] {
      var n := |parts| - 1;
      FieldsExactly(parts[..n], key, value);
      PartOfField(parts[n], key);
      if HasKey(parts[n], key) {
        FieldReplaced(parts, key, value);
      } else {
        forall i: nat ensures GivenLast(parts, key, value, i) <==> GivenLast(parts[..n], key, value, i) {
        }
      }
    }
  }

  lemma FieldSet(parts: seq<string>, key: string)
    requires '=' !in key && key != "" && parts != [] && HasKey(parts[|parts| - 1], key)
    ensures Field(Fields(parts), key) == Some(parts[|parts| - 1][|key| + 1..])
  {
    var n := |parts| - 1;
    KeyFound(parts[n], key);
    hide HasKey, IndexOf;
    assert Fields(parts) == Fields(parts[..n])[key := parts[n][|key| + 1..]];
    hide Fields;
  }

  lemma FieldReplaced(parts: seq<string>, key: string, value: string)
    requires '=' !in key && key != "" && parts != [] && HasKey(parts[|parts| - 1], key)
    ensures Field(Fields(parts), key) == Some(parts[|parts| - 1][|key| + 1..])
    ensures (exists i: nat :: GivenLast(parts, key, value, i)) <==> parts[|parts| - 1][|key| + 1..] == value
  {
    FieldSet(parts, key);
    hide Field, Fields;
    var n := |parts| - 1;
    var last := parts[n][|key| + 1..];
    hide HasKey;
    if last == value {
      assert GivenLast(parts, key, value, n);
    }
  }

  predicate IsWordChar(c: char) {
    'a' <= c <= 'z' || 'A' <= c <= 'Z' || '0' <= c <= '9' || c == '_' || c == '.'
  }

  predicate IsSchemeText(s: string) {
    && s != "" && ('a' <= s[0] <= 'z' || 'A' <= s[0] <= 'Z')
    && forall c :: c in s ==>
         'a' <= c <= 'z' || 'A' <= c <= 'Z' || '0' <= c <= '9' || c == '+' || c == '.' || c == '-'
  }

  lemma SchemeTextExactly(s: string)
    ensures IsScheme(s) <==> IsSchemeText(s)
  {
    if IsScheme(s) {
      forall c | c in s
        ensures 'a' <= c <= 'z' || 'A' <= c <= 'Z' || '0' <= c <= '9' || c == '+' || c == '.' || c == '-'
      {
        var i :| 0 <= i < |s| && s[i] == c;
        assert IsSchemeChar(s[i]);
      }
    }
    if IsSchemeText(s) {
      forall i | 0 <= i < |s| ensures IsSchemeChar(s[i]) {
        assert s[i] in s;
      }
    }
  }

  /** What a link's fields ask for: a target under a good scheme, a well-formed package, a fallback page. */
  lemma IntentAsks(target: string, fields: map<string, string>, lower: string -> string,
      decode: string -> Option<string>)
    ensures var intent := IntentOf(target, fields, lower, decode);
            && (forall url :: intent.url == Some(url) <==>
               "scheme" in fields && IsSchemeText(fields["scheme"]) && url == fields["scheme"] + "://" + target)
            && (forall p :: intent.packageName == Some(p) <==>
               "package" in fields && p == fields["package"] && p != "" && forall c :: c in p ==> IsWordChar(c))
            && (forall page :: intent.fallbackUrl == Some(page) <==> IsFallback(fields, page, lower, decode))
  {
    if "scheme" in fields {
      SchemeTextExactly(fields["scheme"]);
    }
    if "package" in fields {
      PackageExactly(fields["package"]);
    }
    hide IsScheme, IsSchemeText, ParseUrl, IsPackageChar, IsWordChar;
    forall page
      ensures IntentOf(target, fields, lower, decode).fallbackUrl == Some(page) <==>
                IsFallback(fields, page, lower, decode)
    {
    }
  }

  /** The fallback field decodes to an http(s) page. */
  predicate IsFallback(fields: map<string, string>, page: string, lower: string -> string,
      decode: string -> Option<string>)
  {
    && "S.browser_fallback_url" in fields && fields["S.browser_fallback_url"] != ""
    && decode(fields["S.browser_fallback_url"]) == Some(page) && page != ""
    && ParseUrl(page, lower).Some? && IsWeb(ParseUrl(page, lower).value.scheme)
  }

  lemma PackageExactly(p: string)
    ensures (forall i :: 0 <= i < |p| ==> IsPackageChar(p[i])) <==> (forall c :: c in p ==> IsWordChar(c))
  {
    if forall c :: c in p ==> IsWordChar(c) {
      forall i | 0 <= i < |p| ensures IsPackageChar(p[i]) {
        assert p[i] in p;
      }
    }
  }

  /** An intent link opens its target, else its fallback page, else the package's page in the store, else nothing. */
  lemma IntentDecision(raw: string, lower: string -> string, decode: string -> Option<string>)
    ensures var intent := ParseAndroidIntentUrl(raw, lower, decode);
            DecideIntent(raw, lower, decode) ==
              if intent.None? then Block
              else if intent.value.url.Some? then
                OpenOutside(intent.value.url.value, intent.value.fallbackUrl, intent.value.packageName)
              else if intent.value.fallbackUrl.Some? then OpenOutside(intent.value.fallbackUrl.value, None, None)
              else if intent.value.packageName.Some? then
                OpenOutside("market://details?id=" + intent.value.packageName.value, None, None)
              else Block
    ensures ParseAndroidIntentUrl(raw, lower, decode).Some? <==>
              exists target, extras :: IntentForm(Trim(raw), target, extras)
    ensures forall target, extras :: IntentForm(Trim(raw), target, extras) ==>
              ParseAndroidIntentUrl(raw, lower, decode)
              == Some(IntentOf(target, Fields(Split(extras, ';')), lower, decode))
  {
    forall target, extras
      ensures IntentParts(raw) == Some((target, extras)) <==> IntentForm(Trim(raw), target, extras)
    {
      IntentPartsExactly(raw, target, extras);
    }
    hide IntentParts, IntentForm, IntentOf, Fields, Split, Trim;
    if IntentParts(raw).Some? {
      var (target, extras) := IntentParts(raw).value;
      assert IntentForm(Trim(raw), target, extras);
    }
  }
}
