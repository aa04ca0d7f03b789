/**
 The forms a URL may be written in and what the parser makes of each (mobile/src/url.ts): letter case and slashes, ports
 and a final dot, and schemes other than http and https.
 */
module UrlForms {
  import opened Text
  import opened Url

  predicate IsWeb(scheme: string) {
    scheme == "http" || scheme == "https"
  }

  /** A scheme's letters are lower-cased, one by one, and nothing else is. */
  lemma LowerLetters(a: string, b: string)
    ensures AsciiLower("ABCDEFGHIJKLMNOPQRSTUVWXYZ") == "abcdefghijklmnopqrstuvwxyz"
    ensures AsciiLower(a + b) == AsciiLower(a) + AsciiLower(b)
    ensures (forall c :: c in a ==> !('A' <= c <= 'Z')) ==> AsciiLower(a) == a
  {
    Alphabet();
    if forall c :: c in a ==> !('A' <= c <= 'Z') {
      assert forall i :: 0 <= i < |a| ==> a[i] in a;
    }
  }

  lemma Alphabet()
    ensures AsciiLower("ABCDEFGHIJKLMNOPQRSTUVWXYZ") == "abcdefghijklmnopqrstuvwxyz"
  {
    HalfAlphabet();
    OtherHalf();
    LowerConcat("ABCDEFGHIJKLM", "NOPQRSTUVWXYZ");
    assert "ABCDEFGHIJKLM" + "NOPQRSTUVWXYZ" == "ABCDEFGHIJKLMNOPQRSTUVWXYZ";
    assert "abcdefghijklm" + "nopqrstuvwxyz" == "abcdefghijklmnopqrstuvwxyz";
  }

  lemma HalfAlphabet()
    ensures AsciiLower("ABCDEFGHIJKLM") == "abcdefghijklm"
  {
  }

  lemma OtherHalf()
    ensures AsciiLower("NOPQRSTUVWXYZ") == "nopqrstuvwxyz"
  {
  }

  lemma LowerConcat(a: string, b: string)
    ensures AsciiLower(a + b) == AsciiLower(a) + AsciiLower(b)
  {
  }

  /** Any text behind a scheme: spaces at its end do not count. */
  lemma ParseAny(scheme: string, rest: string, lower: string -> string)
    requires IsScheme(scheme)
    ensures ParseUrl(scheme + ":" + rest, lower) == AfterScheme(AsciiLower(scheme), TrimEnd(rest), lower)
  {
    hide AfterScheme, IsSpace, TrimEnd, TrimStart, AsciiLower, IsScheme;
    SchemeFound(scheme, TrimEnd(rest));
    ColonIsNoSpace();
    var text := scheme + ":" + rest;
    assert text[0] == scheme[0];
    StartsPlain(text);
    assert (scheme + ":")[|scheme + ":"| - 1] == ':';
    TrimEndConcat(scheme + ":", rest);
  }

  lemma ColonIsNoSpace()
    ensures !IsSpace(':') && !IsSpace('/') && !IsSpace('\\')
  {
  }

  predicate AreSlashes(s: string) {
    s != "" && forall c :: c in s ==> c == '/' || c == '\\'
  }

  lemma {:induction false} SlashesSkipped(slashes: string, main: string)
    requires forall c :: c in slashes ==> c == '/'
    ensures SkipSlashes(slashes + main) == SkipSlashes(main)
  {
    if slashes == "" {
      assert slashes + main == main;
    } else {
      assert (slashes + main)[0] == slashes[0] && slashes[0] in slashes;
      assert (slashes + main)[1..] == slashes[1..] + main;
      assert forall c :: c in slashes[1..] ==> c in slashes;
      SlashesSkipped(slashes[1..], main);
    }
  }

  lemma SlashedSlashes(slashes: string)
    requires AreSlashes(slashes)
    ensures Slashed(slashes) != "" && forall c :: c in Slashed(slashes) ==> c == '/'
  {
    assert forall i :: 0 <= i < |slashes| ==> slashes[i] in slashes;
  }

  lemma AfterSlashes(scheme: string, slashes: string, rest: string, lower: string -> string)
    requires IsWeb(scheme) && AreSlashes(slashes)
    ensures AfterScheme(scheme, slashes + rest, lower) == AfterScheme(scheme, "//" + rest, lower)
  {
    hide Before, Behind, SkipSlashes, HostOf, PortOf, AreSlashes, Slashed, Assembled;
    SlashedSlashes(slashes);
    SlashedSlashes2();
    SlashedConcat(slashes, rest);
    SlashedConcat("//", rest);
    var s, r := Slashed(slashes), Slashed(rest);
    CutConcat(s, r, '#');
    CutConcat("//", r, '#');
    CutConcat(s, Before(r, '#'), '?');
    CutConcat("//", Before(r, '#'), '?');
    AssembledSlashes(scheme, s, Before(Before(r, '#'), '?'), Behind(Before(r, '#'), '?'), Behind(r, '#'), lower);
  }

  lemma SlashedSlashes2()
    ensures Slashed("//") == "//"
  {
  }

  lemma SlashStarts(slashes: string, main: string)
    requires slashes != "" && forall c :: c in slashes ==> c == '/'
    ensures StartsWith(slashes + main, "/") && SkipSlashes(slashes + main) == SkipSlashes(main)
  {
    SlashesSkipped(slashes, main);
    assert (slashes + main)[0] == slashes[0] && slashes[0] in slashes;
  }

  lemma AssembledSlashes(scheme: string, slashes: string, main: string, query: string, fragment: string,
      lower: string -> string)
    requires IsWeb(scheme) && slashes != "" && forall c :: c in slashes ==> c == '/'
    ensures Assembled(scheme, slashes + main, query, fragment, lower)
         == Assembled(scheme, "//" + main, query, fragment, lower)
  {
    hide SkipSlashes, Before, HostOf, PortOf, StartsWith;
    SlashStarts(slashes, main);
    SlashStarts("//", main);
  }

  /** http and https URLs: any letter case and any number of slashes, of either kind, come to the same. */
  lemma AnySlashes(scheme: string, slashes: string, rest: string, lower: string -> string)
    requires IsScheme(scheme) && IsWeb(AsciiLower(scheme)) && AreSlashes(slashes)
    ensures ParseUrl(scheme + ":" + slashes + rest, lower) == ParseUrl(AsciiLower(scheme) + "://" + rest, lower)
  {
    var name := AsciiLower(scheme);
    SpecialScheme(name);
    hide ParseUrl, AfterScheme, TrimEnd, IsScheme, AsciiLower;
    assert scheme + ":" + slashes + rest == scheme + ":" + (slashes + rest);
    assert name + "://" + rest == name + ":" + ("//" + rest);
    ParseAny(scheme, slashes + rest, lower);
    ParseAny(name, "//" + rest, lower);
    ColonIsNoSpace();
    assert slashes[|slashes| - 1] in slashes;
    assert !IsSpace(slashes[|slashes| - 1]) && !IsSpace("//"[1]);
    TrimEndConcat(slashes, rest);
    TrimEndConcat("//", rest);
    AfterSlashes(name, slashes, TrimEnd(rest), lower);
  }

  /** Without any slash behind the scheme they are refused. */
  lemma NoSlashes(scheme: string, rest: string, lower: string -> string)
    requires IsScheme(scheme) && IsWeb(AsciiLower(scheme))
    requires rest == "" || (rest[0] != '/' && rest[0] != '\\')
    ensures ParseUrl(scheme + ":" + rest, lower).None?
  {
    hide ParseUrl, HostOf, PortOf, IsScheme, AsciiLower, IsSpace;
    ParseAny(scheme, rest, lower);
    TrimEndSlice(rest);
    var text := TrimEnd(rest);
    hide TrimEnd;
    assert text != "" ==> text[0] == rest[0] && Slashed(text)[0] != '/';
    var main := Before(Before(Slashed(text), '#'), '?');
    assert main != "" ==> main[0] == Slashed(text)[0];
    assert !StartsWith(main, "/") && !StartsWith(main, "//");
  }

  /* ---- host and port ---- */

  /** The port that is left out: 80 for http, 443 for https. */
  function PortLeft(scheme: string, port: string): string {
    if (scheme == "http" && port == "80") || (scheme == "https" && port == "443") then "" else port
  }

  /** A host, perhaps with a final dot, and perhaps a colon with a port behind it. */
  function Authority(host: string, dot: bool, colon: bool, port: string): string {
    host + (if dot then "." else "") + (if colon then ":" + port else "")
  }

  /** A host of a URL: no delimiters, no colon, and neither a space nor a dot at its end. */
  predicate GoodHost(host: string, lower: string -> string) {
    && host != "" && Plain(host) && ':' !in host && host[|host| - 1] != '.' && !IsSpace(host[|host| - 1])
    && lower(host) == host && lower(host + ".") == host + "."
  }

  lemma WithColon(front: string, port: string)
    requires Plain(front) && AllDigits(port)
    ensures var authority := front + ":" + port;
            && Plain(authority) && PortColon(authority) == |front|
            && HostText(authority) == front && authority[|front| + 1..] == port
  {
    DigitsPlain(port);
    ColonFound(front, port);
    hide PortColon;
    var authority := front + ":" + port;
    assert authority == front + (":" + port);
    assert authority[..|front|] == front && authority[|front| + 1..] == port;
  }

  lemma NoColon(front: string)
    requires ':' !in front
    ensures PortColon(front) < 0 && HostText(front) == front
  {
  }

  lemma FrontPlain(host: string, dot: bool, lower: string -> string)
    requires GoodHost(host, lower)
    ensures var front := host + (if dot then "." else ""); Plain(front) && ':' !in front
  {
    hide IsSpace;
  }

  /** What the parser cuts such an authority into. */
  lemma AuthorityCut(host: string, dot: bool, colon: bool, port: string, lower: string -> string)
    requires GoodHost(host, lower) && AllDigits(port) && (port != "" ==> colon)
    ensures var authority := Authority(host, dot, colon, port);
            && Plain(authority) && HostAndPort(authority) == authority
            && HostText(authority) == host + (if dot then "." else "")
            && (PortColon(authority) >= 0 <==> colon)
            && (colon ==> authority[PortColon(authority) + 1..] == port)
  {
    hide GoodHost, Plain, PortColon, HostText, HostAndPort, AllDigits;
    var front := host + (if dot then "." else "");
    var authority := Authority(host, dot, colon, port);
    FrontPlain(host, dot, lower);
    if colon {
      assert authority == front + ":" + port;
      WithColon(front, port);
    } else {
      assert authority == front;
      NoColon(front);
    }
    PlainHas(authority, '@');
    NoUserInfo(authority);
  }

  lemma AuthorityEnd(host: string, dot: bool, colon: bool, port: string, lower: string -> string)
    requires GoodHost(host, lower) && AllDigits(port) && (port != "" ==> colon)
    ensures var authority := Authority(host, dot, colon, port);
            authority != "" && !IsSpace(authority[|authority| - 1])
  {
    hide IsSpace;
    NoSpaces(port);
    var authority := Authority(host, dot, colon, port);
    if colon {
      assert authority[|authority| - 1] == if port == "" then ':' else port[|port| - 1];
    } else {
      assert authority[|authority| - 1] == if dot then '.' else host[|host| - 1];
    }
  }

  lemma DotGoes(host: string, dot: bool, lower: string -> string)
    requires GoodHost(host, lower)
    ensures WithoutDot(lower(host + (if dot then "." else ""))) == host
  {
    assert host + "" == host;
    assert (host + ".")[..|host|] == host;
  }

  lemma AuthorityParts(scheme: string, host: string, dot: bool, colon: bool, port: string, lower: string -> string)
    requires GoodHost(host, lower) && AllDigits(port) && (port != "" ==> colon)
    ensures var authority := Authority(host, dot, colon, port);
            && Plain(authority) && HostOf(authority, lower) == host
            && PortOf(scheme, authority) == if IsWeb(scheme) then PortLeft(scheme, port) else port
  {
    hide GoodHost, Authority, PortColon, HostAndPort, HostText, WithoutDot, Plain, AllDigits, DefaultPort, PortLeft;
    AuthorityCut(host, dot, colon, port, lower);
    DotGoes(host, dot, lower);
    PortDropped(scheme, port);
  }

  lemma PortDropped(scheme: string, port: string)
    ensures (if DefaultPort(scheme) == Some(port) then "" else port)
         == if IsWeb(scheme) then PortLeft(scheme, port) else port
  {
  }

  lemma NoSpaces(port: string)
    requires AllDigits(port)
    ensures !IsSpace(':') && !IsSpace('.') && (port != "" ==> !IsSpace(port[|port| - 1]))
  {
    if port != "" {
      assert IsDigit(port[|port| - 1]);
    }
  }

  /** The final dot goes, and so does the scheme's own port and a colon without one. */
  lemma PortExactly(scheme: string, host: string, dot: bool, colon: bool, port: string, lower: string -> string)
    requires IsWeb(scheme) && GoodHost(host, lower) && AllDigits(port) && (port != "" ==> colon)
    ensures ParseUrl(scheme + "://" + Authority(host, dot, colon, port), lower)
         == Some(ParsedUrl(scheme, host, PortLeft(scheme, port), "/", "", ""))
  {
    assert host != "";
    AuthorityParts(scheme, host, dot, colon, port, lower);
    AuthorityEnd(host, dot, colon, port, lower);
    var authority := Authority(host, dot, colon, port);
    hide ParseUrl, HostOf, PortOf, Authority, IsSpace, Plain, GoodHost;
    ParseBare(scheme, authority, lower);
    assert TrimEnd(authority) == authority;
  }

  /* ---- other schemes ---- */

  /** Another scheme's URL without two slashes has no host: it is a path, a query and a fragment. */
  lemma OtherScheme(scheme: string, rest: string, lower: string -> string)
    requires IsScheme(scheme) && !IsWeb(AsciiLower(scheme))
    ensures var text := TrimEnd(rest);
            var main := Before(Before(text, '#'), '?');
            !StartsWith(main, "//") ==>
              ParseUrl(scheme + ":" + rest, lower)
              == Some(ParsedUrl(AsciiLower(scheme), "", "", main, Behind(Before(text, '#'), '?'), Behind(text, '#')))
  {
    hide ParseUrl, HostOf, PortOf, IsScheme, AsciiLower, IsSpace, TrimEnd, Before, Behind, SkipSlashes;
    ParseAny(scheme, rest, lower);
  }

  /** With two slashes it has a host and a port, kept whatever it is, and an empty path stays empty. */
  lemma OtherAuthority(scheme: string, host: string, dot: bool, colon: bool, port: string, path: string,
      lower: string -> string)
    requires IsScheme(scheme) && !IsWeb(AsciiLower(scheme))
    requires GoodHost(host, lower) && AllDigits(port) && (port != "" ==> colon)
    requires path == "" || (path[0] == '/' && '?' !in path && '#' !in path && !IsSpace(path[|path| - 1]))
    ensures ParseUrl(scheme + "://" + Authority(host, dot, colon, port) + path, lower)
         == Some(ParsedUrl(AsciiLower(scheme), host, port, path, "", ""))
  {
    hide HostOf, PortOf, Authority, GoodHost, IsScheme, AsciiLower, IsSpace, ParseUrl, AfterScheme, Plain, AllDigits;
    var authority := Authority(host, dot, colon, port);
    AuthorityParts(AsciiLower(scheme), host, dot, colon, port, lower);
    AuthorityEnd(host, dot, colon, port, lower);
    OtherText(scheme, authority, path, lower);
    AfterOther(AsciiLower(scheme), authority, path, lower);
  }

  lemma OtherText(scheme: string, authority: string, path: string, lower: string -> string)
    requires IsScheme(scheme) && authority != "" && !IsSpace(authority[|authority| - 1])
    requires path != "" ==> !IsSpace(path[|path| - 1])
    ensures ParseUrl(scheme + "://" + authority + path, lower)
         == AfterScheme(AsciiLower(scheme), "//" + authority + path, lower)
  {
    hide IsScheme, AsciiLower, IsSpace, ParseUrl, AfterScheme;
    var rest := "//" + authority + path;
    assert scheme + "://" + authority + path == scheme + ":" + rest;
    ParseAny(scheme, rest, lower);
    assert rest[|rest| - 1] == if path == "" then authority[|authority| - 1] else path[|path| - 1];
    assert TrimEnd(rest) == rest;
  }

  lemma AfterOther(scheme: string, authority: string, path: string, lower: string -> string)
    requires !IsWeb(scheme) && Plain(authority) && authority != ""
    requires path == "" || (path[0] == '/' && '?' !in path && '#' !in path)
    ensures AfterScheme(scheme, "//" + authority + path, lower)
         == Some(ParsedUrl(scheme, HostOf(authority, lower), PortOf(scheme, authority), path, "", ""))
  {
    PlainHas(authority, '#');
    PlainHas(authority, '?');
    PlainHas(authority, '/');
    var rest := "//" + authority + path;
    assert '#' !in rest && '?' !in rest;
    hide Plain, HostOf, PortOf;
    AuthorityBefore(authority, path);
    WholeText(rest);
    hide Before, Behind, SkipSlashes;
    assert StartsWith(rest, "//");
  }

  lemma WholeText(s: string)
    requires '#' !in s && '?' !in s
    ensures Before(s, '#') == s && Before(s, '?') == s && Behind(s, '#') == "" && Behind(s, '?') == ""
  {
  }

  /* ---- origins and parameters ---- */

  /** Only URLs with a host have an origin to share. */
  lemma HostsShared(url: string, origin: string, lower: string -> string)
    requires SameOrigin(url, origin, lower)
    ensures ParseUrl(url, lower).Some? && ParseUrl(origin, lower).Some?
    ensures var u, o := ParseUrl(url, lower).value, ParseUrl(origin, lower).value;
            u.host != "" && o.host != "" && OriginOf(u) == OriginOf(o)
  {
    hide ParseUrl;
  }

  /** A plus sign in a parameter stands for a space, one by one, before it is decoded. */
  lemma PlusIsSpace(a: string, b: string, decode: string -> Option<string>)
    requires '+' !in a
    ensures SafeDecode(a, decode) == decode(a)
    ensures PlusToSpace(a + "+" + b) == a + " " + PlusToSpace(b)
  {
    assert PlusToSpace(a) == a;
    assert forall i :: 0 <= i < |b| ==> (a + "+" + b)[|a| + 1 + i] == b[i];
  }
}
