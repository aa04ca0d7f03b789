/**
 The app's strict URL parser (mobile/src/url.ts), after the WHATWG URL Standard, section 4.4, and RFC 3986,
 section 3.2, with a reference printer. Unicode lower-casing is a parameter; what is used of it is in LowerLaws.
 */
module Url {
  import opened Text

  datatype ParsedUrl = ParsedUrl(scheme: string, host: string, port: string, path: string, query: string,
      fragment: string)

  /** Lower-cased text is a fixed point, piece by piece, and lower-casing introduces no delimiter. */
  ghost predicate LowerLaws(lower: string -> string) {
    && (forall s: string, i: nat, j: nat :: i <= j <= |lower(s)| ==> lower(lower(s)[i..j]) == lower(s)[i..j])
    && (forall s: string, c: char :: c in lower(s) && IsDelimiter(c) ==> c in s)
  }

  predicate IsDelimiter(c: char) {
    c == '/' || c == '\\' || c == '?' || c == '#' || c == '@'
  }

  /* ---- the scheme ---- */

  predicate IsAlpha(c: char) {
    'a' <= c <= 'z' || 'A' <= c <= 'Z'
  }

  predicate IsDigit(c: char) {
    '0' <= c <= '9'
  }

  predicate IsSchemeChar(c: char) {
    IsAlpha(c) || IsDigit(c) || c == '+' || c == '.' || c == '-'
  }

  predicate IsScheme(s: string) {
    s != "" && IsAlpha(s[0]) && forall i :: 0 <= i < |s| ==> IsSchemeChar(s[i])
  }

  function AsciiLower(s: string): string {
    seq(|s|, i requires 0 <= i < |s| => if 'A' <= s[i] <= 'Z' then (s[i] as int + 32) as char else s[i])
  }

  predicate Special(scheme: string) {
    scheme == "http" || scheme == "https"
  }

  function DefaultPort(scheme: string): Option<string> {
    if scheme == "http" then Some("80") else if scheme == "https" then Some("443") else None
  }

  /* ---- the parser ---- */

  function Slashed(s: string): string {
    seq(|s|, i requires 0 <= i < |s| => if s[i] == '\\' then '/' else s[i])
  }

  /** The text before the first c, and what follows it. */
  function Before(s: string, c: char): string {
    var i := IndexOf(s, c);
    if i < 0 then s else s[..i]
  }

  function Behind(s: string, c: char): string {
    var i := IndexOf(s, c);
    if i < 0 then "" else s[i + 1..]
  }

  function SkipSlashes(s: string): string {
    if s != "" && s[0] == '/' then SkipSlashes(s[1..]) else s
  }

  predicate AllDigits(s: string) {
    forall i :: 0 <= i < |s| ==> IsDigit(s[i])
  }

  /** Where `:(digits)` ends the text, -1 when it does not. */
  function PortColon(s: string): (i: int)
    ensures -1 <= i < |s|
  {
    var i := LastIndexOf(s, ':');
    if i >= 0 && AllDigits(s[i + 1..]) then i else -1
  }

  function WithoutDot(s: string): string {
    if s != "" && s[|s| - 1] == '.' then s[..|s| - 1] else s
  }

  /** User information ends at the last `@`. */
  function HostAndPort(authority: string): string {
    authority[LastIndexOf(authority, '@') + 1..]
  }

  /** What stands before the port. */
  function HostText(hostAndPort: string): string {
    var colon := PortColon(hostAndPort);
    if colon >= 0 then hostAndPort[..colon] else hostAndPort
  }

  function HostOf(authority: string, lower: string -> string): string {
    WithoutDot(lower(HostText(HostAndPort(authority))))
  }

  function PortOf(scheme: string, authority: string): string {
    var hostAndPort := HostAndPort(authority);
    var colon := PortColon(hostAndPort);
    var port := if colon >= 0 then hostAndPort[colon + 1..] else "";
    if DefaultPort(scheme) == Some(port) then "" else port
  }

  /** The URL of what stands before the query, once query and fragment are cut off. */
  function Assembled(scheme: string, main: string, query: string, fragment: string,
      lower: string -> string): Option<ParsedUrl>
  {
    if StartsWith(main, "//") || (Special(scheme) && StartsWith(main, "/")) then
      var afterSlashes := SkipSlashes(main);
      var authority := Before(afterSlashes, '/');
      var path := afterSlashes[|authority|..];
      var host := HostOf(authority, lower);
      if Special(scheme) && host == "" then None
      else Some(ParsedUrl(scheme, host, PortOf(scheme, authority), if Special(scheme) && path == "" then "/"
          else path, query, fragment))
    else if Special(scheme) then None
    else Some(ParsedUrl(scheme, "", "", main, query, fragment))
  }

  /** The URL of a scheme and everything after its colon. */
  function AfterScheme(scheme: string, text: string, lower: string -> string): Option<ParsedUrl> {
    var rest := if Special(scheme) then Slashed(text) else text;
    var unfragmented := Before(rest, '#');
    Assembled(scheme, Before(unfragmented, '?'), Behind(unfragmented, '?'), Behind(rest, '#'), lower)
  }

  function ParseUrl(raw: string, lower: string -> string): Option<ParsedUrl> {
    var input := Trim(raw);
    var colon := IndexOf(input, ':');
    if colon < 0 || !IsScheme(input[..colon]) then None
    else AfterScheme(AsciiLower(input[..colon]), input[colon + 1..], lower)
  }

  function OriginOf(u: ParsedUrl): string {
    if u.host == "" then "" else u.scheme + "://" + HostPort(u.host, u.port)
  }

  function HostPort(host: string, port: string): string {
    host + (if port == "" then "" else ":" + port)
  }

  predicate SameOrigin(url: string, origin: string, lower: string -> string) {
    var parsed := ParseUrl(url, lower);
    var expected := ParseUrl(origin, lower);
    parsed.Some? && expected.Some? && OriginOf(parsed.value) != "" && OriginOf(parsed.value) == OriginOf(expected.value)
  }

  /* ---- text lemmas ---- */

  lemma {:induction false} SlashedConcat(a: string, b: string)
    ensures Slashed(a + b) == Slashed(a) + Slashed(b)
  {
  }

  lemma SlashedSame(s: string)
    requires '\\' !in s
    ensures Slashed(s) == s
  {
  }

  lemma {:induction false} TrimEndConcat(a: string, b: string)
    requires a != "" && !IsSpace(a[|a| - 1])
    ensures TrimEnd(a + b) == a + TrimEnd(b)
  {
    if b == "" {
      assert a + b == a;
    } else if IsSpace(b[|b| - 1]) {
      assert (a + b)[..|a + b| - 1] == a + b[..|b| - 1];
      TrimEndConcat(a, b[..|b| - 1]);
    }
  }

  lemma CutConcat(a: string, b: string, c: char)
    requires c !in a
    ensures Before(a + b, c) == a + Before(b, c)
    ensures Behind(a + b, c) == Behind(b, c)
  {
    var i := IndexOf(b, c);
    if i >= 0 {
      assert a + b == (a + b[..i]) + [c] + b[i + 1..];
      FirstIndex(a + b[..i], c, b[i + 1..]);
      assert (a + b)[..|a| + i] == a + b[..i];
      assert (a + b)[|a| + i + 1..] == b[i + 1..];
    } else {
      assert c !in a + b;
    }
  }

  /* ---- an authority that is read back as written ---- */

  predicate Plain(host: string) {
    forall i :: 0 <= i < |host| ==> !IsDelimiter(host[i])
  }

  /** A host and port that the parser finds again in host[:port]. */
  predicate Canonical(scheme: string, host: string, port: string) {
    && Special(scheme) && host != "" && Plain(host)
    && host[|host| - 1] != '.'
    && AllDigits(port) && DefaultPort(scheme) != Some(port)
    && (port == "" ==> PortColon(host) < 0 && !IsSpace(host[|host| - 1]))
  }

  lemma PlainHas(host: string, c: char)
    requires Plain(host) && IsDelimiter(c)
    ensures c !in host
  {
  }

  lemma DigitsPlain(port: string)
    requires AllDigits(port)
    ensures Plain(":" + port) && ':' !in port
  {
  }

  lemma HostPortPlain(host: string, port: string)
    requires Plain(host) && AllDigits(port)
    ensures Plain(HostPort(host, port))
  {
    DigitsPlain(port);
  }

  lemma ColonFound(host: string, port: string)
    requires AllDigits(port)
    ensures PortColon(host + ":" + port) == |host|
  {
    var text := host + [':'] + port;
    DigitsPlain(port);
    LastIndex(host, ':', port);
    assert text[|host| + 1..] == port;
  }

  lemma NoUserInfo(authority: string)
    requires '@' !in authority
    ensures HostAndPort(authority) == authority
  {
  }

  lemma PlainHasNoUser(host: string, port: string)
    requires Plain(host) && AllDigits(port)
    ensures HostAndPort(HostPort(host, port)) == HostPort(host, port)
  {
    HostPortPlain(host, port);
    PlainHas(HostPort(host, port), '@');
    NoUserInfo(HostPort(host, port));
  }

  lemma ColonOfHostPort(host: string, port: string)
    requires AllDigits(port) && (port == "" ==> PortColon(host) < 0)
    ensures var text := HostPort(host, port);
            if port == "" then text == host && PortColon(text) < 0
            else PortColon(text) == |host| && text[..|host|] == host && text[|host| + 1..] == port
  {
    hide PortColon;
    if port != "" {
      ColonFound(host, port);
      assert HostPort(host, port) == host + ":" + port;
    } else {
      assert HostPort(host, port) == host;
    }
  }

  /**
   The parser's reading of host[:port] for a plain host: the port if there is one, the host with the dot rule applied.
   */
  lemma ReadHostPort(scheme: string, host: string, port: string, lower: string -> string)
    requires Plain(host) && AllDigits(port)
    requires port == "" ==> PortColon(host) < 0
    ensures HostOf(HostPort(host, port), lower) == WithoutDot(lower(host))
    ensures PortOf(scheme, HostPort(host, port)) == if DefaultPort(scheme) == Some(port) then "" else port
  {
    hide PortColon, WithoutDot, HostAndPort, HostPort, Plain, AllDigits;
    PlainHasNoUser(host, port);
    ColonOfHostPort(host, port);
  }

  /** The parts after a canonical authority: nothing, or text that starts a path, a query or a fragment. */
  predicate EndsAuthority(rest: string) {
    rest == "" || rest[0] == '/' || rest[0] == '\\' || rest[0] == '?' || rest[0] == '#'
  }

  function MainPart(rest: string): string {
    Before(Before(Slashed(rest), '#'), '?')
  }

  /** What a canonical origin followed by such text is parsed to. */
  function UnderOrigin(scheme: string, host: string, port: string, rest: string): ParsedUrl {
    ParsedUrl(scheme, host, port, if MainPart(rest) == "" then "/" else MainPart(rest),
              Behind(Before(Slashed(rest), '#'), '?'), Behind(Slashed(rest), '#'))
  }

  lemma SkipTwo(text: string)
    requires text == "" || text[0] != '/'
    ensures SkipSlashes("//" + text) == text
  {
    assert ("//" + text)[1..][1..] == text;
    assert SkipSlashes("//" + text) == SkipSlashes(("//" + text)[1..]) == SkipSlashes(text) == text;
  }

  lemma NoneBefore(main: string)
    requires main == "" || main[0] == '/'
    ensures Before(main, '/') == ""
  {
  }

  lemma AuthorityBefore(hostPort: string, main: string)
    requires '/' !in hostPort && (main == "" || (main[0] == '/' && hostPort != ""))
    ensures SkipSlashes("//" + hostPort + main) == hostPort + main
    ensures Before(hostPort + main, '/') == hostPort && (hostPort + main)[|hostPort|..] == main
  {
    hide SkipSlashes, Before;
    assert "//" + hostPort + main == "//" + (hostPort + main);
    SkipTwo(hostPort + main);
    CutConcat(hostPort, main, '/');
    NoneBefore(main);
    assert hostPort + "" == hostPort;
  }

  lemma AssembledUnder(scheme: string, hostPort: string, main: string, query: string, fragment: string,
      lower: string -> string)
    requires Special(scheme) && '/' !in hostPort && (main == "" || (main[0] == '/' && hostPort != ""))
    ensures Assembled(scheme, "//" + hostPort + main, query, fragment, lower)
         == var host := HostOf(hostPort, lower);
            if host == "" then None
            else Some(ParsedUrl(scheme, host, PortOf(scheme, hostPort), if main == "" then "/"
                else main, query, fragment))
  {
    hide HostOf, PortOf, SkipSlashes, Before;
    AuthorityBefore(hostPort, main);
  }

  lemma MainStarts(rest: string)
    requires EndsAuthority(rest)
    ensures MainPart(rest) == "" || MainPart(rest)[0] == '/'
  {
  }

  /** A scheme of special text, `//`, an authority that reads back, and text that ends it. */
  lemma AfterSchemeUnder(scheme: string, host: string, port: string, rest: string, lower: string -> string)
    requires Canonical(scheme, host, port) && lower(host) == host && EndsAuthority(rest)
    ensures AfterScheme(scheme, "//" + HostPort(host, port) + rest, lower)
            == Some(UnderOrigin(scheme, host, port, rest))
  {
    var authority := HostPort(host, port);
    var text := "//" + authority + rest;
    HostPortPlain(host, port);
    PlainHas(authority, '\\');
    PlainHas(authority, '#');
    PlainHas(authority, '?');
    PlainHas(authority, '/');
    SlashedConcat("//" + authority, rest);
    SlashedSame("//" + authority);
    CutConcat("//" + authority, Slashed(rest), '#');
    CutConcat("//" + authority, Before(Slashed(rest), '#'), '?');
    MainStarts(rest);
    ReadHostPort(scheme, host, port, lower);
    AssembledUnder(scheme, authority, MainPart(rest), Behind(Before(Slashed(rest), '#'), '?'),
        Behind(Slashed(rest), '#'), lower);
  }

  /* ---- parsing undoes printing ---- */

  function Print(u: ParsedUrl): string {
    u.scheme + "://" + HostPort(u.host, u.port) + Tail(u)
  }

  function Tail(u: ParsedUrl): string {
    u.path + (if u.query == "" then "" else "?" + u.query) + (if u.fragment == "" then "" else "#" + u.fragment)
  }

  /** The parts of an http(s) URL as the parser gives them. */
  predicate WellFormed(u: ParsedUrl) {
    && Canonical(u.scheme, u.host, u.port)
    && u.path != "" && u.path[0] == '/'
    && '\\' !in u.path && '?' !in u.path && '#' !in u.path
    && '\\' !in u.query && '#' !in u.query
    && '\\' !in u.fragment
    && !IsSpace(Tail(u)[|Tail(u)| - 1])
  }

  lemma SchemeFound(scheme: string, text: string)
    requires IsScheme(scheme)
    ensures IndexOf(scheme + ":" + text, ':') == |scheme| && scheme != "" && !IsSpace(scheme[0])
    ensures (scheme + ":" + text)[..|scheme|] == scheme && (scheme + ":" + text)[|scheme| + 1..] == text
  {
    assert forall i :: 0 <= i < |scheme| ==> IsSchemeChar(scheme[i]);
    assert ':' !in scheme;
    assert scheme + ":" + text == scheme + [':'] + text;
    FirstIndex(scheme, ':', text);
  }

  lemma SpecialScheme(scheme: string)
    requires Special(scheme)
    ensures IsScheme(scheme) && AsciiLower(scheme) == scheme
  {
    assert scheme == ['h', 't', 't', 'p'] || scheme == ['h', 't', 't', 'p', 's'];
  }

  lemma TrimBehindScheme(scheme: string, start: string, rest: string)
    requires scheme != "" && !IsSpace(scheme[0]) && start != "" && !IsSpace(start[|start| - 1])
    ensures Trim(scheme + ":" + start + rest) == scheme + ":" + (start + TrimEnd(rest))
  {
    hide IsSpace, TrimStart, TrimEnd;
    var text := scheme + ":" + start + rest;
    assert text[0] == scheme[0];
    StartsPlain(text);
    assert text == (scheme + ":" + start) + rest;
    TrimEndConcat(scheme + ":" + start, rest);
  }

  lemma StartsPlain(s: string)
    requires s != "" && !IsSpace(s[0])
    ensures TrimStart(s) == s
  {
  }

  /** Parsing starts behind the scheme; trimming touches only the end of the text. */
  lemma ParseBehindScheme(scheme: string, start: string, rest: string, lower: string -> string)
    requires IsScheme(scheme) && start != "" && !IsSpace(start[|start| - 1])
    ensures ParseUrl(scheme + ":" + start + rest, lower)
            == AfterScheme(AsciiLower(scheme), start + TrimEnd(rest), lower)
  {
    hide AfterScheme, IsSpace, IsScheme, Trim, TrimEnd, AsciiLower;
    SchemeFound(scheme, start + TrimEnd(rest));
    TrimBehindScheme(scheme, start, rest);
  }

  lemma LastOfHostPort(scheme: string, host: string, port: string)
    requires Canonical(scheme, host, port)
    ensures var start := "//" + HostPort(host, port); !IsSpace(start[|start| - 1])
  {
    var start := "//" + HostPort(host, port);
    if port != "" {
      assert start[|start| - 1] == port[|port| - 1];
      assert IsDigit(port[|port| - 1]);
    } else {
      assert start[|start| - 1] == host[|host| - 1];
    }
  }

  lemma TrimmedEndsAuthority(rest: string)
    requires EndsAuthority(rest)
    ensures EndsAuthority(TrimEnd(rest))
  {
    TrimEndSlice(rest);
  }

  lemma CanonicalScheme(scheme: string, host: string, port: string)
    requires Canonical(scheme, host, port)
    ensures IsScheme(scheme) && AsciiLower(scheme) == scheme
  {
    SpecialScheme(scheme);
  }

  /** A canonical origin and text that ends it: the trimmed text is parsed under that origin. */
  lemma ParseUnder(scheme: string, host: string, port: string, rest: string, lower: string -> string)
    requires Canonical(scheme, host, port) && lower(host) == host && EndsAuthority(rest)
    ensures ParseUrl(scheme + "://" + HostPort(host, port) + rest, lower)
            == Some(UnderOrigin(scheme, host, port, TrimEnd(rest)))
  {
    hide ParseUrl, AfterScheme, UnderOrigin, Canonical, EndsAuthority, IsSpace, HostPort, IsScheme, AsciiLower, TrimEnd;
    var start := "//" + HostPort(host, port);
    LastOfHostPort(scheme, host, port);
    CanonicalScheme(scheme, host, port);
    TrimmedEndsAuthority(rest);
    AfterSchemeUnder(scheme, host, port, TrimEnd(rest), lower);
    ParseBehindScheme(scheme, start, rest, lower);
    assert scheme + "://" + HostPort(host, port) + rest == scheme + ":" + start + rest;
  }

  lemma CutTail(u: ParsedUrl)
    requires WellFormed(u)
    ensures MainPart(Tail(u)) == u.path
    ensures Behind(Before(Slashed(Tail(u)), '#'), '?') == u.query
    ensures Behind(Slashed(Tail(u)), '#') == u.fragment
  {
    hide Canonical, IsSpace, Plain;
    var beforeHash := u.path + (if u.query == "" then "" else "?" + u.query);
    var hash := if u.fragment == "" then "" else "#" + u.fragment;
    SlashedSame(Tail(u));
    CutConcat(beforeHash, hash, '#');
    assert Before(hash, '#') == "" && Behind(hash, '#') == u.fragment;
    assert beforeHash + "" == beforeHash;
    CutConcat(u.path, if u.query == "" then "" else "?" + u.query, '?');
    assert u.path + "" == u.path;
  }

  lemma RoundTrip(u: ParsedUrl, lower: string -> string)
    requires WellFormed(u) && lower(u.host) == u.host
    ensures ParseUrl(Print(u), lower) == Some(u)
  {
    var tail := Tail(u);
    assert TrimEnd(tail) == tail;
    ParseUnder(u.scheme, u.host, u.port, tail, lower);
    CutTail(u);
  }

  /* ---- origins ---- */

  lemma BeforeIsPrefix(s: string, c: char)
    ensures Before(s, c) <= s && c !in Before(s, c)
  {
  }

  lemma {:induction false} SkipSlashesIsSuffix(s: string)
    ensures forall c :: c in SkipSlashes(s) ==> c in s
    ensures |SkipSlashes(s)| <= |s|
  {
    if s != "" && s[0] == '/' {
      SkipSlashesIsSuffix(s[1..]);
    }
  }

  predicate AuthorityText(s: string) {
    '/' !in s && '\\' !in s && '?' !in s && '#' !in s
  }

  lemma AuthorityIsCut(rest: string)
    requires '\\' !in rest
    ensures AuthorityText(Before(SkipSlashes(Before(Before(rest, '#'), '?')), '/'))
  {
    BeforeIsPrefix(rest, '#');
    BeforeIsPrefix(Before(rest, '#'), '?');
    SkipSlashesIsSuffix(Before(Before(rest, '#'), '?'));
    BeforeIsPrefix(SkipSlashes(Before(Before(rest, '#'), '?')), '/');
  }

  lemma LoweredPlain(s: string, lower: string -> string)
    requires LowerLaws(lower) && Plain(s)
    ensures Plain(WithoutDot(lower(s))) && lower(WithoutDot(lower(s))) == WithoutDot(lower(s))
  {
    var low, host := lower(s), WithoutDot(lower(s));
    assert host == low[0..|host|];
    forall i | 0 <= i < |host| ensures !IsDelimiter(host[i]) {
      assert host[i] in low;
    }
  }

  lemma BehindUserIsPlain(authority: string)
    requires AuthorityText(authority)
    ensures Plain(HostAndPort(authority))
  {
    assert forall c :: c in HostAndPort(authority) ==> c in authority && c != '@';
  }

  lemma HostTextIsPlain(hostAndPort: string)
    requires Plain(hostAndPort)
    ensures Plain(HostText(hostAndPort))
  {
  }

  lemma PortShape(scheme: string, authority: string)
    ensures AllDigits(PortOf(scheme, authority))
    ensures Special(scheme) ==> DefaultPort(scheme) != Some(PortOf(scheme, authority))
  {
    hide HostAndPort;
  }

  lemma HostIsPlain(authority: string, lower: string -> string)
    requires LowerLaws(lower) && AuthorityText(authority)
    ensures Plain(HostOf(authority, lower)) && lower(HostOf(authority, lower)) == HostOf(authority, lower)
  {
    hide LowerLaws, AuthorityText, HostAndPort, WithoutDot, Plain, HostText;
    BehindUserIsPlain(authority);
    HostTextIsPlain(HostAndPort(authority));
    LoweredPlain(HostText(HostAndPort(authority)), lower);
  }

  lemma AssembledHost(scheme: string, main: string, query: string, fragment: string, lower: string -> string)
    requires LowerLaws(lower) && Special(scheme) && AuthorityText(Before(SkipSlashes(main), '/'))
    ensures var parsed := Assembled(scheme, main, query, fragment, lower);
            parsed.Some? ==>
              var u := parsed.value;
              && u.scheme == scheme && u.host != "" && Plain(u.host) && lower(u.host) == u.host
              && AllDigits(u.port) && DefaultPort(u.scheme) != Some(u.port)
  {
    hide LowerLaws, AuthorityText, HostOf, PortOf, Before, SkipSlashes;
    HostIsPlain(Before(SkipSlashes(main), '/'), lower);
    PortShape(scheme, Before(SkipSlashes(main), '/'));
  }

  lemma AssembledScheme(scheme: string, main: string, query: string, fragment: string, lower: string -> string)
    ensures var parsed := Assembled(scheme, main, query, fragment, lower);
            parsed.Some? ==> parsed.value.scheme == scheme
  {
    hide HostOf, PortOf, Before, SkipSlashes;
  }

  lemma NoBackslashes(text: string)
    ensures '\\' !in Slashed(text)
  {
  }

  /** What every parsed http(s) host and port satisfies. */
  lemma ParsedHost(raw: string, lower: string -> string)
    requires LowerLaws(lower)
    requires ParseUrl(raw, lower).Some? && Special(ParseUrl(raw, lower).value.scheme)
    ensures var u := ParseUrl(raw, lower).value;
            && u.host != "" && Plain(u.host) && lower(u.host) == u.host
            && AllDigits(u.port) && DefaultPort(u.scheme) != Some(u.port)
  {
    hide LowerLaws, Assembled, AuthorityText, Trim, IsScheme, AsciiLower, Before, Behind, Slashed, Plain, AllDigits;
    hide SkipSlashes;
    var input := Trim(raw);
    var colon := IndexOf(input, ':');
    var scheme, text := AsciiLower(input[..colon]), input[colon + 1..];
    var rest := if Special(scheme) then Slashed(text) else text;
    var main, query := Before(Before(rest, '#'), '?'), Behind(Before(rest, '#'), '?');
    AssembledScheme(scheme, main, query, Behind(rest, '#'), lower);
    NoBackslashes(text);
    AuthorityIsCut(rest);
    AssembledHost(scheme, main, query, Behind(rest, '#'), lower);
  }

  lemma AfterSchemeBare(scheme: string, authority: string, lower: string -> string)
    requires Special(scheme) && Plain(authority)
    ensures AfterScheme(scheme, "//" + authority, lower)
         == if HostOf(authority, lower) == "" then None
            else Some(ParsedUrl(scheme, HostOf(authority, lower), PortOf(scheme, authority), "/", "", ""))
  {
    hide HostOf, PortOf, Assembled;
    var text := "//" + authority;
    PlainHas(authority, '\\');
    PlainHas(authority, '#');
    PlainHas(authority, '?');
    PlainHas(authority, '/');
    SlashedSame(text);
    assert '#' !in text && '?' !in text;
    assert text == "//" + authority + "";
    AssembledUnder(scheme, authority, "", "", "", lower);
  }

  /** `https://` and a plain authority, canonical or not. */
  lemma ParseBare(scheme: string, authority: string, lower: string -> string)
    requires Special(scheme) && Plain(authority)
    ensures ParseUrl(scheme + "://" + authority, lower)
         == var trimmed := TrimEnd(authority);
            if HostOf(trimmed, lower) == "" then None
            else Some(ParsedUrl(scheme, HostOf(trimmed, lower), PortOf(scheme, trimmed), "/", "", ""))
  {
    hide ParseUrl, AfterScheme, HostOf, PortOf, Plain, IsSpace, IsScheme, AsciiLower, TrimEnd;
    TrimmedPlain(authority);
    AfterSchemeBare(scheme, TrimEnd(authority), lower);
    SpecialScheme(scheme);
    NoSpaceInSlashes();
    ParseBehindScheme(scheme, "//", authority, lower);
    assert scheme + "://" + authority == scheme + ":" + "//" + authority;
  }

  lemma TrimmedPlain(authority: string)
    requires Plain(authority)
    ensures Plain(TrimEnd(authority))
  {
    TrimEndSlice(authority);
  }

  lemma NoSpaceInSlashes()
    ensures "//" != "" && !IsSpace("//"[|"//"| - 1])
  {
  }

  lemma KeptHost(host: string, kept: nat, lower: string -> string)
    requires LowerLaws(lower) && lower(host) == host && kept <= |host|
    ensures |WithoutDot(lower(host[..kept]))| <= kept
    ensures WithoutDot(lower(host[..kept])) == host && host != "" ==> kept == |host| && host[|host| - 1] != '.'
  {
    assert host[..kept] == lower(host)[0..kept];
    assert lower(host[..kept]) == host[..kept];
  }

  lemma HostOfPlain(authority: string, lower: string -> string)
    requires Plain(authority)
    ensures var kept := if PortColon(authority) >= 0 then PortColon(authority) else |authority|;
            HostOf(authority, lower) == WithoutDot(lower(authority[..kept]))
  {
    PlainHas(authority, '@');
    NoUserInfo(authority);
    assert authority[..|authority|] == authority;
  }

  /** Without a port, an authority that reads back as the host alone has nothing to trim and no colon to cut at. */
  lemma BareHostReadsBack(host: string, lower: string -> string)
    requires LowerLaws(lower) && host != "" && Plain(host) && lower(host) == host
    requires HostOf(TrimEnd(host), lower) == host
    ensures host[|host| - 1] != '.' && PortColon(host) < 0 && !IsSpace(host[|host| - 1])
  {
    hide HostOf, Plain, LowerLaws, WithoutDot, PortColon, IsSpace;
    var trimmed := TrimEnd(host);
    TrimEndSlice(host);
    TrimmedPlain(host);
    HostOfPlain(trimmed, lower);
    var kept := if PortColon(trimmed) >= 0 then PortColon(trimmed) else |trimmed|;
    assert trimmed[..kept] == host[..kept];
    KeptHost(host, kept, lower);
    assert trimmed == host;
  }

  /** An authority that reads back as the given host and port is canonical. */
  lemma ReadsBackOnly(scheme: string, host: string, port: string, lower: string -> string)
    requires LowerLaws(lower) && Special(scheme)
    requires host != "" && Plain(host) && lower(host) == host && AllDigits(port) && DefaultPort(scheme) != Some(port)
    requires HostOf(TrimEnd(HostPort(host, port)), lower) == host
    ensures Canonical(scheme, host, port)
  {
    hide HostOf, Plain, LowerLaws, PortColon, WithoutDot, HostPort, AllDigits, TrimEnd;
    TrimmedHostPort(host, port);
    if port == "" {
      BareHostReadsBack(host, lower);
    } else {
      ReadHostPort(scheme, host, port, lower);
      DotKept(host);
    }
  }

  lemma TrimmedHostPort(host: string, port: string)
    requires AllDigits(port)
    ensures port == "" ==> HostPort(host, port) == host
    ensures port != "" ==> TrimEnd(HostPort(host, port)) == HostPort(host, port)
  {
    if port != "" {
      assert HostPort(host, port)[|HostPort(host, port)| - 1] == port[|port| - 1];
      assert IsDigit(port[|port| - 1]);
    }
  }

  lemma DotKept(host: string)
    ensures host != "" && WithoutDot(host) == host ==> host[|host| - 1] != '.'
  {
  }

  lemma EmptyRest(scheme: string, host: string, port: string)
    ensures UnderOrigin(scheme, host, port, TrimEnd("")) == ParsedUrl(scheme, host, port, "/", "", "")
    ensures EndsAuthority("")
  {
  }

  lemma ReparsedOrigin(scheme: string, host: string, port: string, lower: string -> string)
    requires LowerLaws(lower) && Special(scheme)
    requires host != "" && Plain(host) && lower(host) == host && AllDigits(port) && DefaultPort(scheme) != Some(port)
    ensures ParseUrl(scheme + "://" + HostPort(host, port), lower) == Some(ParsedUrl(scheme, host, port, "/", "", ""))
            <==> Canonical(scheme, host, port)
  {
    hide ParseUrl, HostOf, PortOf, HostPort, Plain, LowerLaws, UnderOrigin, TrimEnd, EndsAuthority, AllDigits;
    HostPortPlain(host, port);
    ParseBare(scheme, HostPort(host, port), lower);
    if Canonical(scheme, host, port) {
      EmptyRest(scheme, host, port);
      ParseUnder(scheme, host, port, "", lower);
      assert scheme + "://" + HostPort(host, port) + "" == scheme + "://" + HostPort(host, port);
    } else if HostOf(TrimEnd(HostPort(host, port)), lower) == host {
      ReadsBackOnly(scheme, host, port, lower);
    }
  }

  /**
   The origin of a parsed http(s) URL is parsed back to the same scheme, host and port exactly when these are
   canonical.
   */
  lemma OriginReparses(raw: string, lower: string -> string)
    requires LowerLaws(lower)
    requires ParseUrl(raw, lower).Some? && Special(ParseUrl(raw, lower).value.scheme)
    ensures var u := ParseUrl(raw, lower).value;
            ParseUrl(OriginOf(u), lower) == Some(ParsedUrl(u.scheme, u.host, u.port, "/", "", "")) <==>
                Canonical(u.scheme, u.host, u.port)
  {
    hide ParseUrl, Canonical, LowerLaws, HostPort;
    var u := ParseUrl(raw, lower).value;
    ParsedHost(raw, lower);
    ReparsedOrigin(u.scheme, u.host, u.port, lower);
  }

  /** There are such hosts: of two dots at the end the parser takes one off, and of the origin the other. */
  lemma OriginNotReparsed(lower: string -> string)
    requires LowerLaws(lower) && lower("a..") == "a.." && lower("a.") == "a."
    ensures var u := ParsedUrl("https", "a.", "", "/", "", "");
            ParseUrl("https://a..", lower) == Some(u) && ParseUrl(OriginOf(u), lower) != Some(u)
  {
    hide ParseUrl, HostOf, PortOf, LowerLaws, Plain, TrimEnd, Canonical;
    TwoDots(lower);
    ParseBare("https", "a..", lower);
    assert "https" + "://" + "a.." == "https://a..";
    DotIsNotCanonical();
    OriginReparses("https://a..", lower);
  }

  lemma TwoDots(lower: string -> string)
    requires lower("a..") == "a.."
    ensures Plain("a..") && TrimEnd("a..") == "a.." && HostOf("a..", lower) == "a." && PortOf("https", "a..") == ""
  {
    TwoDotsPlain();
    hide TrimEnd, Plain, LastIndexOf, IsDelimiter;
    NoUserInfo("a..");
    assert ("a..")[..2] == "a.";
    assert PortColon("a..") == -1;
  }

  lemma TwoDotsPlain()
    ensures Plain("a..") && TrimEnd("a..") == "a.." && '@' !in "a.." && LastIndexOf("a..", ':') == -1
  {
    var s := "a..";
    assert s[0] == 'a' && s[1] == '.' && s[2] == '.' && |s| == 3;
  }

  lemma DotIsNotCanonical()
    ensures !Canonical("https", "a.", "")
  {
    assert "a."[1] == '.';
  }

  /* ---- same origin ---- */

  lemma CutIsUnique(a: string, b: string, x: string, y: string, c: char)
    requires a + [c] + x == b + [c] + y && c !in a && c !in b
    ensures a == b && x == y
  {
    var s := a + [c] + x;
    FirstIndex(a, c, x);
    FirstIndex(b, c, y);
    assert |a| == |b|;
    assert s[..|a|] == a && s[..|b|] == b;
    assert s[|a| + 1..] == x && s[|b| + 1..] == y;
  }

  lemma ParsedScheme(raw: string, lower: string -> string)
    requires ParseUrl(raw, lower).Some?
    ensures ':' !in ParseUrl(raw, lower).value.scheme
  {
    var input := Trim(raw);
    var scheme := input[..IndexOf(input, ':')];
    assert forall c :: c in AsciiLower(scheme) ==> c != ':' by {
      forall i | 0 <= i < |scheme| ensures AsciiLower(scheme)[i] != ':' {
        assert IsSchemeChar(scheme[i]);
      }
    }
    hide IsScheme, AsciiLower, Slashed;
  }

  lemma OriginsAgree(u: ParsedUrl, v: ParsedUrl)
    requires u.host != "" && v.host != "" && ':' !in u.scheme && ':' !in v.scheme
    ensures OriginOf(u) == OriginOf(v) <==> u.scheme == v.scheme && HostPort(u.host, u.port) == HostPort(v.host, v.port)
    ensures OriginOf(u) == OriginOf(v) && ':' !in u.host && ':' !in v.host ==> u.host == v.host && u.port == v.port
  {
    assert OriginOf(u) == u.scheme + [':'] + ("//" + HostPort(u.host, u.port));
    assert OriginOf(v) == v.scheme + [':'] + ("//" + HostPort(v.host, v.port));
    if OriginOf(u) == OriginOf(v) {
      CutIsUnique(u.scheme, v.scheme, "//" + HostPort(u.host, u.port), "//" + HostPort(v.host, v.port), ':');
      assert ("//" + HostPort(u.host, u.port))[2..] == HostPort(u.host, u.port);
      assert ("//" + HostPort(v.host, v.port))[2..] == HostPort(v.host, v.port);
      if ':' !in u.host && ':' !in v.host {
        HostPortsAgree(u.host, u.port, v.host, v.port);
      }
    }
  }

  lemma ColonShowsPort(host: string, port: string)
    requires ':' !in host
    ensures ':' in HostPort(host, port) <==> port != ""
  {
    if port == "" {
      assert HostPort(host, port) == host;
    } else {
      assert HostPort(host, port)[|host|] == ':';
    }
  }

  lemma HostPortsAgree(a: string, p: string, b: string, q: string)
    requires HostPort(a, p) == HostPort(b, q) && ':' !in a && ':' !in b
    ensures a == b && p == q
  {
    ColonShowsPort(a, p);
    ColonShowsPort(b, q);
    if p == "" {
      assert HostPort(a, p) == a && HostPort(b, q) == b;
    } else {
      assert a + [':'] + p == HostPort(a, p) && b + [':'] + q == HostPort(b, q);
      CutIsUnique(a, b, p, q, ':');
    }
  }

  /**
   A page has the site's origin exactly when it parses to the site's scheme and to its host and port together; host and
   port are then each the same, as long as neither host holds a colon.
   */
  lemma SameOriginExactly(url: string, scheme: string, host: string, port: string, lower: string -> string)
    requires LowerLaws(lower) && Canonical(scheme, host, port) && lower(host) == host
    ensures var parsed := ParseUrl(url, lower);
            SameOrigin(url, scheme + "://" + HostPort(host, port), lower)
            <==> parsed.Some? && parsed.value.scheme == scheme && parsed.value.host != ""
                 && HostPort(parsed.value.host, parsed.value.port) == HostPort(host, port)
    ensures SameOrigin(url, scheme + "://" + HostPort(host, port), lower) && ':' !in ParseUrl(url, lower).value.host
            && ':' !in host
            ==> ParseUrl(url, lower).value.host == host && ParseUrl(url, lower).value.port == port
  {
    SiteIsItsOrigin(scheme, host, port, lower);
    hide ParseUrl, Canonical, LowerLaws, HostPort, OriginOf;
    if ParseUrl(url, lower).Some? {
      ParsedScheme(url, lower);
      var u := ParseUrl(url, lower).value;
      OriginText(u);
      OriginText(ParsedUrl(scheme, host, port, "/", "", ""));
      if u.host != "" {
        OriginsAgree(u, ParsedUrl(scheme, host, port, "/", "", ""));
      }
    }
  }

  lemma OriginText(u: ParsedUrl)
    ensures OriginOf(u) != "" <==> u.host != ""
  {
  }

  lemma SiteIsItsOrigin(scheme: string, host: string, port: string, lower: string -> string)
    requires LowerLaws(lower) && Canonical(scheme, host, port) && lower(host) == host
    ensures host != "" && ':' !in scheme
    ensures ParseUrl(scheme + "://" + HostPort(host, port), lower) == Some(ParsedUrl(scheme, host, port, "/", "", ""))
  {
    assert host != "" && Plain(host) && AllDigits(port) && DefaultPort(scheme) != Some(port);
    SpecialScheme(scheme);
    hide ParseUrl, Canonical, LowerLaws, HostPort, Plain, AllDigits, DefaultPort;
    ReparsedOrigin(scheme, host, port, lower);
  }

  /* ---- backslashes ---- */

  function SchemeOf(raw: string): Option<string> {
    var input := Trim(raw);
    var colon := IndexOf(input, ':');
    if colon < 0 || !IsScheme(input[..colon]) then None else Some(AsciiLower(input[..colon]))
  }

  lemma {:induction false} TrimStartSlashed(s: string)
    ensures TrimStart(Slashed(s)) == Slashed(TrimStart(s))
  {
    if s != "" && IsSpace(s[0]) {
      assert Slashed(s)[1..] == Slashed(s[1..]);
      TrimStartSlashed(s[1..]);
    }
  }

  lemma {:induction false} TrimEndSlashed(s: string)
    ensures TrimEnd(Slashed(s)) == Slashed(TrimEnd(s))
  {
    if s != "" && IsSpace(s[|s| - 1]) {
      assert Slashed(s)[..|s| - 1] == Slashed(s[..|s| - 1]);
      TrimEndSlashed(s[..|s| - 1]);
    }
  }

  lemma {:induction false} IndexOfSlashed(s: string, c: char)
    requires c != '/' && c != '\\'
    ensures IndexOf(Slashed(s), c) == IndexOf(s, c)
  {
    if s != "" {
      assert Slashed(s)[1..] == Slashed(s[1..]);
      IndexOfSlashed(s[1..], c);
    }
  }

  lemma IsSchemeSlashed(s: string)
    ensures IsScheme(Slashed(s)) == IsScheme(s)
    ensures IsScheme(s) ==> Slashed(s) == s
  {
    assert forall i :: 0 <= i < |s| ==> IsSchemeChar(Slashed(s)[i]) == IsSchemeChar(s[i]);
    if IsScheme(s) {
      assert forall i :: 0 <= i < |s| ==> IsSchemeChar(s[i]);
    }
  }

  lemma AfterSchemeSlashed(scheme: string, text: string, lower: string -> string)
    requires Special(scheme)
    ensures AfterScheme(scheme, Slashed(text), lower) == AfterScheme(scheme, text, lower)
  {
    hide Assembled;
    assert Slashed(Slashed(text)) == Slashed(text);
  }

  /** For http and https a backslash anywhere means a slash. */
  lemma BackslashIsSlash(raw: string, lower: string -> string)
    requires SchemeOf(raw).Some? && Special(SchemeOf(raw).value)
    ensures ParseUrl(Slashed(raw), lower) == ParseUrl(raw, lower)
  {
    hide AfterScheme, IsScheme, AsciiLower;
    TrimStartSlashed(raw);
    TrimEndSlashed(TrimStart(raw));
    var input := Trim(raw);
    assert Trim(Slashed(raw)) == Slashed(input);
    hide Trim;
    IndexOfSlashed(input, ':');
    var colon := IndexOf(input, ':');
    assert Slashed(input)[..colon] == Slashed(input[..colon]);
    IsSchemeSlashed(input[..colon]);
    var text := input[colon + 1..];
    assert Slashed(input)[colon + 1..] == Slashed(text);
    AfterSchemeSlashed(AsciiLower(input[..colon]), text, lower);
  }

  /* ---- user information ---- */

  lemma AuthorityWithUser(user: string, main: string)
    requires AuthorityText(user)
    requires main == "" || main[0] != '/'
    ensures SkipSlashes("//" + main) == main
    ensures SkipSlashes("//" + (user + "@" + main)) == user + "@" + main
    ensures Before(user + "@" + main, '/') == user + "@" + Before(main, '/')
  {
    hide SkipSlashes, Before;
    SkipTwo(main);
    SkipTwo(user + "@" + main);
    CutConcat(user + "@", main, '/');
  }

  lemma HostBehindUser(user: string, authority: string)
    ensures HostAndPort(user + "@" + authority) == HostAndPort(authority)
  {
    var i := LastIndexOf(authority, '@');
    if i < 0 {
      assert user + "@" + authority == user + ['@'] + authority;
      LastIndex(user, '@', authority);
    } else {
      assert user + "@" + authority == (user + "@" + authority[..i]) + ['@'] + authority[i + 1..];
      LastIndex(user + "@" + authority[..i], '@', authority[i + 1..]);
    }
  }

  lemma AssembledWithUser(scheme: string, user: string, main: string, query: string, fragment: string,
      lower: string -> string)
    requires Special(scheme) && AuthorityText(user)
    requires main == "" || main[0] != '/'
    ensures Assembled(scheme, "//" + (user + "@" + main), query, fragment, lower)
            == Assembled(scheme, "//" + main, query, fragment, lower)
  {
    hide SkipSlashes, Before, HostOf, PortOf, AuthorityText;
    var authority := Before(main, '/');
    AuthorityWithUser(user, main);
    BeforeIsPrefix(main, '/');
    ReadBehindUser(scheme, user, authority, lower);
    assert (user + "@" + main)[|user + "@" + authority|..] == main[|authority|..];
  }

  lemma ReadBehindUser(scheme: string, user: string, authority: string, lower: string -> string)
    ensures HostOf(user + "@" + authority, lower) == HostOf(authority, lower)
    ensures PortOf(scheme, user + "@" + authority) == PortOf(scheme, authority)
  {
    hide PortColon, WithoutDot, HostAndPort;
    HostBehindUser(user, authority);
  }

  /** Cutting off fragment and query leaves user information where it is. */
  lemma CutBehindUser(user: string, rest: string)
    requires AuthorityText(user)
    ensures var text, slashed := Slashed("//" + user + "@" + rest), Slashed(rest);
            && Before(Before(text, '#'), '?') == "//" + (user + "@" + MainPart(rest))
            && Behind(Before(text, '#'), '?') == Behind(Before(slashed, '#'), '?')
            && Behind(text, '#') == Behind(slashed, '#')
  {
    hide Before, Behind, Slashed, AuthorityText;
    var start, slashed := "//" + user + "@", Slashed(rest);
    UserStart(user);
    SlashedConcat(start, rest);
    SlashedSame(start);
    CutConcat(start, slashed, '#');
    CutConcat(start, Before(slashed, '#'), '?');
    assert start + rest == "//" + user + "@" + rest;
    assert start + MainPart(rest) == "//" + (user + "@" + MainPart(rest));
  }

  lemma UserStart(user: string)
    requires AuthorityText(user)
    ensures var start := "//" + user + "@"; '\\' !in start && '#' !in start && '?' !in start
  {
  }

  lemma CutBehindSlashes(rest: string)
    ensures var text, slashed := Slashed("//" + rest), Slashed(rest);
            && Before(Before(text, '#'), '?') == "//" + MainPart(rest)
            && Behind(Before(text, '#'), '?') == Behind(Before(slashed, '#'), '?')
            && Behind(text, '#') == Behind(slashed, '#')
  {
    var slashed := Slashed(rest);
    SlashedConcat("//", rest);
    SlashedSame("//");
    CutConcat("//", slashed, '#');
    CutConcat("//", Before(slashed, '#'), '?');
  }

  lemma MainPartStart(rest: string)
    ensures rest == "" || (rest[0] != '/' && rest[0] != '\\') ==> MainPart(rest) == "" || MainPart(rest)[0] != '/'
    ensures rest != "" && (rest[0] == '/' || rest[0] == '\\') ==> MainPart(rest) != "" && MainPart(rest)[0] == '/'
  {
    BeforeIsPrefix(Slashed(rest), '#');
    BeforeIsPrefix(Before(Slashed(rest), '#'), '?');
  }

  lemma AfterSchemeWithUser(scheme: string, user: string, rest: string, lower: string -> string)
    requires Special(scheme) && AuthorityText(user)
    requires rest == "" || (rest[0] != '/' && rest[0] != '\\')
    ensures AfterScheme(scheme, "//" + user + "@" + rest, lower) == AfterScheme(scheme, "//" + rest, lower)
  {
    CutBehindUser(user, rest);
    CutBehindSlashes(rest);
    MainPartStart(rest);
    hide Before, Behind, Slashed, MainPart, AuthorityText, Assembled;
    AssembledWithUser(scheme, user, MainPart(rest), Behind(Before(Slashed(rest), '#'), '?'),
        Behind(Slashed(rest), '#'), lower);
  }

  lemma TrimmedStart(rest: string)
    ensures rest == "" || (rest[0] != '/' && rest[0] != '\\') ==>
              TrimEnd(rest) == "" || (TrimEnd(rest)[0] != '/' && TrimEnd(rest)[0] != '\\')
    ensures rest != "" && (rest[0] == '/' || rest[0] == '\\') ==>
              TrimEnd(rest) != "" && (TrimEnd(rest)[0] == '/' || TrimEnd(rest)[0] == '\\')
  {
    TrimEndSlice(rest);
    if rest != "" && !IsSpace(rest[0]) {
      TrimEndKeeps(rest);
    }
  }

  /** User information in front of the authority never changes where an http(s) URL leads. */
  lemma UserInfoIgnored(scheme: string, user: string, rest: string, lower: string -> string)
    requires Special(AsciiLower(scheme)) && IsScheme(scheme) && AuthorityText(user)
    requires rest == "" || (rest[0] != '/' && rest[0] != '\\')
    ensures ParseUrl(scheme + "://" + user + "@" + rest, lower) == ParseUrl(scheme + "://" + rest, lower)
  {
    hide ParseUrl, AfterScheme, AsciiLower, IsScheme, AuthorityText, TrimEnd, IsSpace;
    TrimmedStart(rest);
    AfterSchemeWithUser(AsciiLower(scheme), user, TrimEnd(rest), lower);
    NoSpaceInSlashes();
    NoSpaceAfterUser(user);
    ParseBehindScheme(scheme, "//" + user + "@", rest, lower);
    ParseBehindScheme(scheme, "//", rest, lower);
    assert scheme + "://" + user + "@" + rest == scheme + ":" + ("//" + user + "@") + rest;
    assert scheme + "://" + rest == scheme + ":" + "//" + rest;
  }

  lemma NoSpaceAfterUser(user: string)
    ensures var start := "//" + user + "@"; !IsSpace(start[|start| - 1])
  {
  }

  lemma EmptyHost(user: string, lower: string -> string)
    requires LowerLaws(lower)
    ensures HostOf(user + "@", lower) == ""
  {
    ReadBehindUser("", user, "", lower);
    hide HostAndPort;
    assert user + "@" + "" == user + "@";
    NoUserInfo("");
    assert lower("") == lower(lower("")[0..0]) == lower("")[0..0] == "";
  }

  lemma NoHostBehindUser(scheme: string, user: string, main: string, query: string, fragment: string,
      lower: string -> string)
    requires Special(scheme) && AuthorityText(user) && LowerLaws(lower)
    requires main != "" && main[0] == '/'
    ensures Assembled(scheme, "//" + (user + "@" + main), query, fragment, lower) == None
  {
    hide Assembled, HostOf, PortOf, LowerLaws;
    var authority := user + "@";
    assert "//" + (user + "@" + main) == "//" + authority + main;
    EmptyHost(user, lower);
    AssembledUnder(scheme, authority, main, query, fragment, lower);
  }

  /** In front of a slash it leaves the URL without a host. */
  lemma UserInfoAlone(scheme: string, user: string, rest: string, lower: string -> string)
    requires Special(AsciiLower(scheme)) && IsScheme(scheme) && AuthorityText(user) && LowerLaws(lower)
    requires rest != "" && (rest[0] == '/' || rest[0] == '\\')
    ensures ParseUrl(scheme + "://" + user + "@" + rest, lower) == None
  {
    hide ParseUrl, Assembled, Slashed, Before, Behind, MainPart, AuthorityText, AsciiLower, IsScheme, LowerLaws;
    hide TrimEnd, IsSpace;
    var start, end := "//" + user + "@", TrimEnd(rest);
    TrimmedStart(rest);
    CutBehindUser(user, end);
    MainPartStart(end);
    NoHostBehindUser(AsciiLower(scheme), user, MainPart(end), Behind(Before(Slashed(end), '#'), '?'),
        Behind(Slashed(end), '#'), lower);
    NoSpaceAfterUser(user);
    ParseBehindScheme(scheme, start, rest, lower);
    assert scheme + "://" + user + "@" + rest == scheme + ":" + start + rest;
  }

  lemma TrimEndKeeps(s: string)
    requires s != "" && !IsSpace(s[0])
    ensures TrimEnd(s) != ""
  {
    assert s == s[..1] + s[1..];
    TrimEndConcat(s[..1], s[1..]);
  }

  /* ---- query parameters ---- */

  function PlusToSpace(s: string): string {
    seq(|s|, i requires 0 <= i < |s| => if s[i] == '+' then ' ' else s[i])
  }

  /** Percent-decoding is a parameter; None where it would throw. */
  function SafeDecode(value: string, decode: string -> Option<string>): Option<string> {
    decode(PlusToSpace(value))
  }

  function FirstParam(pairs: seq<string>, name: string, decode: string -> Option<string>): Option<string> {
    if pairs == [] then None
    else if SafeDecode(Before(pairs[0], '='), decode) == Some(name) then SafeDecode(Behind(pairs[0], '='), decode)
    else FirstParam(pairs[1..], name, decode)
  }

  lemma CutAtFirst(s: string, c: char)
    ensures var i := IndexOf(s, c);
            Before(s, c) == (if i >= 0 then s[..i] else s) && Behind(s, c) == if i >= 0 then s[i + 1..] else ""
  {
    hide IndexOf;
  }

  method QueryParam(query: string, name: string, decode: string -> Option<string>) returns (value: Option<string>)
    ensures value == FirstParam(Split(query, '&'), name, decode)
  {
    hide SafeDecode, IndexOf, Split, Before, Behind;
    var pairs := Split(query, '&');
    assert pairs[0..] == pairs;
    for i := 0 to |pairs|
      invariant FirstParam(pairs[i..], name, decode) == FirstParam(pairs, name, decode)
    {
      assert pairs[i..][1..] == pairs[i + 1..];
      var pair := pairs[i];
      CutAtFirst(pair, '=');
      var eq := IndexOf(pair, '=');
      var key := if eq >= 0 then pair[..eq] else pair;
      if SafeDecode(key, decode) == Some(name) {
        return SafeDecode(if eq >= 0 then pair[eq + 1..] else "", decode);
      }
    }
    return None;
  }

  /** An encoder of parameters that the decoder undoes, as encodeURIComponent is. */
  ghost predicate Encodes(encode: string -> string, decode: string -> Option<string>) {
    forall s :: && decode(encode(s)) == Some(s)
                && '&' !in encode(s) && '=' !in encode(s) && '+' !in encode(s)
  }

  function Pair(param: (string, string), encode: string -> string): string {
    encode(param.0) + "=" + encode(param.1)
  }

  function Pairs(params: seq<(string, string)>, encode: string -> string): seq<string> {
    seq(|params|, i requires 0 <= i < |params| => Pair(params[i], encode))
  }

  function Lookup(params: seq<(string, string)>, name: string): Option<string> {
    if params == [] then None else if params[0].0 == name then Some(params[0].1) else Lookup(params[1..], name)
  }

  lemma PairDecodes(param: (string, string), encode: string -> string, decode: string -> Option<string>)
    requires Encodes(encode, decode)
    ensures SafeDecode(Before(Pair(param, encode), '='), decode) == Some(param.0)
    ensures SafeDecode(Behind(Pair(param, encode), '='), decode) == Some(param.1)
    ensures '&' !in Pair(param, encode)
  {
    var key, value := encode(param.0), encode(param.1);
    assert Pair(param, encode) == key + ['='] + value;
    FirstIndex(key, '=', value);
    assert (key + ['='] + value)[..|key|] == key && (key + ['='] + value)[|key| + 1..] == value;
    assert PlusToSpace(key) == key && PlusToSpace(value) == value;
  }

  lemma {:induction false} FirstParamOfPairs(params: seq<(string, string)>, name: string, encode: string -> string,
      decode: string -> Option<string>)
    requires Encodes(encode, decode)
    ensures FirstParam(Pairs(params, encode), name, decode) == Lookup(params, name)
  {
    if params != [] {
      PairDecodes(params[0], encode, decode);
      assert Pairs(params, encode)[1..] == Pairs(params[1..], encode);
      FirstParamOfPairs(params[1..], name, encode, decode);
    }
  }

  /** A parameter is read back from a written query as the first value given to its name. */
  lemma QueryRoundTrip(params: seq<(string, string)>, name: string, encode: string -> string,
      decode: string -> Option<string>)
    requires Encodes(encode, decode) && |params| > 0
    ensures FirstParam(Split(Join(Pairs(params, encode), '&'), '&'), name, decode) == Lookup(params, name)
  {
    forall i | 0 <= i < |params| ensures '&' !in Pairs(params, encode)[i] {
      PairDecodes(params[i], encode, decode);
    }
    SplitJoin(Pairs(params, encode), '&');
    FirstParamOfPairs(params, name, encode, decode);
  }
}
