/**
 The base64url encoder of the PKCE hand-off, against RFC 4648: it agrees with the padded standard encoding
 of section 4, uses only the URL-safe alphabet of section 5, pads nothing (section 3.2), and decoding gives
 the bytes back.

 The encoder's loop cuts bytes with the source's bit operations; the specification it is proved against uses quotients
 and remainders of the bytes' values, and BitOperations says that the two are the same.
 */
module Pkce {

  type Byte = x: int | 0 <= x < 256
  type Sextet = x: int | 0 <= x < 64

  /* ---- the alphabet ---- */

  function Run(first: nat, n: nat): string
    requires first + n < 128
  {
    seq(n, k requires 0 <= k < n => (first + k) as char)
  }

  const BASE64_ALPHABET: string := Run(65, 26) + Run(97, 26) + Run(48, 10) + ['+', '/']

  lemma LiteralRuns()
    ensures "ABCDEFGHIJKLMNOPQRSTUVWXYZ" == Run(65, 26)
    ensures "abcdefghijklmnopqrstuvwxyz" == Run(97, 26)
    ensures "0123456789" == Run(48, 10)
  {
  }

  lemma LiteralParts(upper: string, lower: string, digits: string)
    requires upper == "ABCDEFGHIJKLMNOPQRSTUVWXYZ" && lower == "abcdefghijklmnopqrstuvwxyz" && digits == "0123456789"
    ensures upper + lower + digits + ['+', '/'] == "ABCDEFGHIJKLMNOPQRSTUVWXYZabcdefghijklmnopqrstuvwxyz0123456789+/"
  {
  }

  lemma AlphabetLiteral()
    ensures BASE64_ALPHABET == "ABCDEFGHIJKLMNOPQRSTUVWXYZabcdefghijklmnopqrstuvwxyz0123456789+/"
  {
    LiteralRuns();
    LiteralParts(Run(65, 26), Run(97, 26), Run(48, 10));
  }

  function Symbol(v: Sextet): char {
    BASE64_ALPHABET[v]
  }

  /** The value of a symbol of the URL-safe alphabet (RFC 4648, section 5). */
  function Value(c: char): Sextet {
    if 'A' <= c <= 'Z' then c as int - 65
    else if 'a' <= c <= 'z' then c as int - 71
    else if '0' <= c <= '9' then c as int + 4
    else if c == '-' then 62
    else 63
  }

  predicate InUrlAlphabet(c: char) {
    'A' <= c <= 'Z' || 'a' <= c <= 'z' || '0' <= c <= '9' || c == '-' || c == '_'
  }

  function UrlSafe(c: char): char {
    if c == '+' then '-' else if c == '/' then '_' else c
  }

  lemma SymbolValue(v: Sextet)
    ensures Value(UrlSafe(Symbol(v))) == v
    ensures InUrlAlphabet(UrlSafe(Symbol(v)))
  {
    assert Symbol(v) == if v < 26 then (v + 65) as char else if v < 52 then (v - 26 + 97) as char
                        else if v < 62 then (v - 52 + 48) as char else if v == 62 then '+' else '/';
  }

  /* ---- the encoder ---- */

  function At(bytes: seq<Byte>, i: nat): Byte {
    if i < |bytes| then bytes[i] else 0
  }

  /** The six-bit values of a group: four for three bytes, two or three for the one or two left over at the end. */
  function GroupSextets(group: seq<Byte>): (r: seq<Sextet>)
    requires 1 <= |group| <= 3
    ensures |r| == |group| + 1
  {
    var a, b, c := group[0], At(group, 1), At(group, 2);
    [a / 4, a % 4 * 16 + b / 16]
    + (if |group| > 1 then [b % 16 * 4 + c / 64] else [])
    + (if |group| > 2 then [c % 64] else [])
  }

  /** Bytes as the encoder gets them, and their values. */
  function Values(bytes: seq<bv8>): seq<Byte> {
    seq(|bytes|, i requires 0 <= i < |bytes| => bytes[i] as int)
  }

  function TopSix(a: bv8): int {
    (a >> 2) as int
  }

  function TwoAndFour(a: bv8, b: bv8): int {
    (((a & 3) << 4) | (b >> 4)) as int
  }

  function FourAndTwo(b: bv8, c: bv8): int {
    (((b & 15) << 2) | (c >> 6)) as int
  }

  function LowSix(c: bv8): int {
    (c & 63) as int
  }

  /** The shifts and masks on bytes are quotients and remainders of their values. */
  lemma BitOperations(a: bv8, b: bv8)
    ensures TopSix(a) == (a as int) / 4 && LowSix(a) == (a as int) % 64
    ensures TwoAndFour(a, b) == (a as int) % 4 * 16 + (b as int) / 16
    ensures FourAndTwo(a, b) == (a as int) % 16 * 4 + (b as int) / 64
  {
    Shifted(a);
    Masked(a);
    Joined(a, b);
    FourBits(a, b, ((a & 3) << 4) | (b >> 4));
    TwoBits(a, b, ((a & 15) << 2) | (b >> 6));
  }

  lemma FourBits(x: bv8, y: bv8, p: bv8)
    requires p >> 4 == x & 3 && p & 15 == y >> 4
    ensures p as int == (x as int) % 4 * 16 + (y as int) / 16
  {
    Shifted(p);
    Shifted(y);
    Masked(p);
    Masked(x);
  }

  lemma TwoBits(x: bv8, y: bv8, p: bv8)
    requires p >> 2 == x & 15 && p & 3 == y >> 6
    ensures p as int == (x as int) % 16 * 4 + (y as int) / 64
  {
    Shifted(p);
    Shifted(y);
    Masked(p);
    Masked(x);
  }

  lemma Shifted(x: bv8)
    ensures (x >> 2) as int == (x as int) / 4 && (x >> 4) as int == (x as int) / 16
            && (x >> 6) as int == (x as int) / 64
  {
  }

  lemma Masked(x: bv8)
    ensures (x & 3) as int == (x as int) % 4 && (x & 15) as int == (x as int) % 16 && (x & 63) as int == (x as int) % 64
  {
    assert x & 3 == x % 4 && x & 15 == x % 16 && x & 63 == x % 64;
  }

  lemma Joined(x: bv8, y: bv8)
    ensures (((x & 3) << 4) | (y >> 4)) >> 4 == x & 3 && (((x & 3) << 4) | (y >> 4)) & 15 == y >> 4
    ensures (((x & 15) << 2) | (y >> 6)) >> 2 == x & 15 && (((x & 15) << 2) | (y >> 6)) & 3 == y >> 6
  {
  }

  function Sextets(bytes: seq<Byte>): seq<Sextet> {
    if bytes == [] then []
    else if |bytes| <= 3 then GroupSextets(bytes)
    else GroupSextets(bytes[..3]) + Sextets(bytes[3..])
  }

  function Symbols(values: seq<Sextet>): string {
    seq(|values|, i requires 0 <= i < |values| => Symbol(values[i]))
  }

  function WithoutPadding(s: string): string {
    if s != "" && s[|s| - 1] == '=' then WithoutPadding(s[..|s| - 1]) else s
  }

  function MapUrlSafe(s: string): string {
    seq(|s|, i requires 0 <= i < |s| => UrlSafe(s[i]))
  }

  /** Standard base64 to unpadded base64url. */
  function Base64ToBase64Url(value: string): string {
    WithoutPadding(MapUrlSafe(value))
  }

  /** What BytesToBase64Url computes. */
  function Encode(bytes: seq<Byte>): string {
    Base64ToBase64Url(Symbols(Sextets(bytes)))
  }

  /** What the loop has not read yet; its index steps by three and may pass the end. */
  ghost function Unread(bytes: seq<Byte>, i: nat): seq<Byte> {
    if i < |bytes| then bytes[i..] else []
  }

  ghost function Group(bytes: seq<Byte>, i: nat): seq<Byte>
    requires i < |bytes|
  {
    if i + 3 <= |bytes| then bytes[i..i + 3] else bytes[i..]
  }

  lemma ReadGroup(bytes: seq<Byte>, i: nat)
    requires i < |bytes|
    ensures Sextets(Unread(bytes, i)) == GroupSextets(Group(bytes, i)) + Sextets(Unread(bytes, i + 3))
  {
    var left := bytes[i..];
    if |left| > 3 {
      assert left[..3] == Group(bytes, i) && left[3..] == Unread(bytes, i + 3);
    } else {
      assert left == Group(bytes, i) && Unread(bytes, i + 3) == [];
    }
  }

  lemma SymbolsConcat(values: seq<Sextet>, more: seq<Sextet>)
    ensures Symbols(values + more) == Symbols(values) + Symbols(more)
  {
  }

  /** What one turn of the loop appends is the encoding of the group at index i. */
  lemma GroupSymbols(bytes: seq<Byte>, i: nat)
    requires i < |bytes|
    ensures var a, b, c := bytes[i], At(bytes, i + 1), At(bytes, i + 2);
            Symbols(GroupSextets(Group(bytes, i)))
            == [Symbol(a / 4)] + [Symbol(a % 4 * 16 + b / 16)]
               + (if i + 1 < |bytes| then [Symbol(b % 16 * 4 + c / 64)] else [])
               + (if i + 2 < |bytes| then [Symbol(c % 64)] else [])
  {
    hide Symbol;
  }

  lemma NoSymbols()
    ensures Symbols([]) == ""
  {
  }

  function ByteAt(bytes: seq<bv8>, i: nat): bv8 {
    if i < |bytes| then bytes[i] else 0
  }

  /** The sextets the loop cuts at i are those of the values there. */
  lemma CutAt(bytes: seq<bv8>, i: nat)
    requires i < |bytes|
    ensures |Values(bytes)| == |bytes|
    ensures TopSix(ByteAt(bytes, i)) == Values(bytes)[i] / 4
    ensures TwoAndFour(ByteAt(bytes, i), ByteAt(bytes, i + 1))
            == Values(bytes)[i] % 4 * 16 + At(Values(bytes), i + 1) / 16
    ensures FourAndTwo(ByteAt(bytes, i + 1), ByteAt(bytes, i + 2))
            == At(Values(bytes), i + 1) % 16 * 4 + At(Values(bytes), i + 2) / 64
    ensures LowSix(ByteAt(bytes, i + 2)) == At(Values(bytes), i + 2) % 64
  {
    var a, b, c := ByteAt(bytes, i), ByteAt(bytes, i + 1), ByteAt(bytes, i + 2);
    ValueAt(bytes, i);
    ValueAt(bytes, i + 1);
    ValueAt(bytes, i + 2);
    BitOperations(a, b);
    BitOperations(b, c);
    BitOperations(c, c);
    hide TopSix, TwoAndFour, FourAndTwo, LowSix, ByteAt;
  }

  lemma SameCount(bytes: seq<bv8>)
    ensures |Values(bytes)| == |bytes|
  {
  }

  lemma ValueAt(bytes: seq<bv8>, i: nat)
    ensures ByteAt(bytes, i) as int == At(Values(bytes), i)
  {
  }

  method BytesToBase64Url(bytes: seq<bv8>) returns (url: string)
    ensures url == Encode(Values(bytes))
  {
    hide Symbol, Symbols, GroupSextets, TopSix, TwoAndFour, FourAndTwo, LowSix, ByteAt, Values;
    assert |Values(bytes)| == |bytes| by { SameCount(bytes); }
    var out := "";
    ghost var values := Values(bytes);
    ghost var done: seq<Sextet> := [];
    NoSymbols();
    var i := 0;
    while i < |bytes|
      invariant 0 <= i
      invariant out == Symbols(done)
      invariant done + Sextets(Unread(values, i)) == Sextets(values)
    {
      var a, b, c := ByteAt(bytes, i), ByteAt(bytes, i + 1), ByteAt(bytes, i + 2);
      CutAt(bytes, i);
      out := out + [Symbol(TopSix(a))];
      out := out + [Symbol(TwoAndFour(a, b))];
      if i + 1 < |bytes| { out := out + [Symbol(FourAndTwo(b, c))]; }
      if i + 2 < |bytes| { out := out + [Symbol(LowSix(c))]; }
      ghost var sextets := GroupSextets(Group(values, i));
      assert out == Symbols(done) + Symbols(sextets) by { GroupSymbols(values, i); }
      SymbolsConcat(done, sextets);
      ReadGroup(values, i);
      done := done + sextets;
      i := i + 3;
    }
    assert done + [] == done;
    url := Base64ToBase64Url(out);
  }

  /* ---- shape of the result ---- */

  lemma NothingToStrip(values: seq<Sextet>)
    ensures Base64ToBase64Url(Symbols(values)) == MapUrlSafe(Symbols(values))
  {
    if values != [] {
      SymbolValue(values[|values| - 1]);
    }
  }

  lemma {:induction false} SextetCount(bytes: seq<Byte>)
    ensures |Sextets(bytes)| == (4 * |bytes| + 2) / 3
  {
    if |bytes| > 3 {
      SextetCount(bytes[3..]);
    }
  }

  /** ceil(4n/3) symbols, every one from the URL-safe alphabet: 43 for the 32 bytes of RFC 7636, section 4.1. */
  lemma UrlShape(bytes: seq<Byte>)
    ensures |Encode(bytes)| == (4 * |bytes| + 2) / 3
    ensures forall i :: 0 <= i < |Encode(bytes)| ==> InUrlAlphabet(Encode(bytes)[i])
  {
    var values := Sextets(bytes);
    NothingToStrip(values);
    SextetCount(bytes);
    forall i | 0 <= i < |values| ensures InUrlAlphabet(MapUrlSafe(Symbols(values))[i]) {
      SymbolValue(values[i]);
    }
  }

  /* ---- the padded standard encoding of RFC 4648, section 4 ---- */

  /** A group read as one 24-bit number, zero bits added on the right, and cut into six-bit digits. */
  function Digit(group: seq<Byte>, k: nat): Sextet
    requires 1 <= |group| <= 3 && k < 4
  {
    var n: int := group[0] * 65536 + At(group, 1) * 256 + At(group, 2);
    match k
    case 0 => n / 262144
    case 1 => n / 4096 % 64
    case 2 => n / 64 % 64
    case _ => n % 64
  }

  function Quantum(group: seq<Byte>): string
    requires 1 <= |group| <= 3
  {
    seq(4, k requires 0 <= k < 4 => if k <= |group| then Symbol(Digit(group, k)) else '=')
  }

  function StandardBase64(bytes: seq<Byte>): string {
    if bytes == [] then ""
    else if |bytes| <= 3 then Quantum(bytes)
    else Quantum(bytes[..3]) + StandardBase64(bytes[3..])
  }

  /** Division by a constant, with the quotient and the remainder given. */
  lemma Quotient(n: int, m: int, q: int, r: int)
    requires m in [64, 4096, 262144] && n == m * q + r && 0 <= r < m
    ensures n / m == q && n % m == r
  {
  }

  lemma Cuts(a: int, b: int, c: int)
    requires 0 <= a < 256 && 0 <= b < 256 && 0 <= c < 256
    ensures (a * 65536 + b * 256 + c) / 262144 == a / 4
    ensures (a * 65536 + b * 256 + c) / 4096 % 64 == a % 4 * 16 + b / 16
    ensures (a * 65536 + b * 256 + c) / 64 % 64 == b % 16 * 4 + c / 64
    ensures (a * 65536 + b * 256 + c) % 64 == c % 64
  {
    var n := a * 65536 + b * 256 + c;
    Quotient(n, 262144, a / 4, a % 4 * 65536 + b * 256 + c);
    Quotient(n, 4096, a * 16 + b / 16, b % 16 * 256 + c);
    Quotient(a * 16 + b / 16, 64, a / 4, a % 4 * 16 + b / 16);
    Quotient(n, 64, a * 1024 + b * 4 + c / 64, c % 64);
    Quotient(a * 1024 + b * 4 + c / 64, 64, a * 16 + b / 16, b % 16 * 4 + c / 64);
  }

  lemma GroupDigits(group: seq<Byte>, k: nat)
    requires 1 <= |group| <= 3 && k <= |group|
    ensures GroupSextets(group)[k] == Digit(group, k)
  {
    Cuts(group[0], At(group, 1), At(group, 2));
  }

  function Padding(n: nat): string {
    if n % 3 == 0 then "" else if n % 3 == 1 then "==" else "="
  }

  lemma QuantumIsPadded(group: seq<Byte>)
    requires 1 <= |group| <= 3
    ensures Quantum(group) == Symbols(GroupSextets(group)) + Padding(|group|)
  {
    forall k | 0 <= k < 4
      ensures Quantum(group)[k] == (Symbols(GroupSextets(group)) + Padding(|group|))[k]
    {
      if k <= |group| {
        GroupDigits(group, k);
      }
    }
  }

  lemma JoinQuanta(first: string, rest: string, group: seq<Sextet>, more: seq<Sextet>, n: nat)
    requires first == Symbols(group) + Padding(3)
    requires rest == Symbols(more) + Padding(n)
    ensures first + rest == Symbols(group + more) + Padding(n + 3)
  {
    SymbolsConcat(group, more);
  }

  lemma {:induction false} StandardIsPadded(bytes: seq<Byte>)
    ensures StandardBase64(bytes) == Symbols(Sextets(bytes)) + Padding(|bytes|)
  {
    hide Quantum, GroupSextets;
    if bytes == [] {
    } else if |bytes| <= 3 {
      QuantumIsPadded(bytes);
    } else {
      var first, rest := bytes[..3], bytes[3..];
      assert Quantum(first) == Symbols(GroupSextets(first)) + Padding(3) by { QuantumIsPadded(first); }
      assert StandardBase64(rest) == Symbols(Sextets(rest)) + Padding(|rest|) by { StandardIsPadded(rest); }
      JoinQuanta(Quantum(first), StandardBase64(rest), GroupSextets(first), Sextets(rest), |rest|);
    }
  }

  lemma PaddingStripped(s: string, n: nat)
    requires s == WithoutPadding(s)
    ensures WithoutPadding(s + Padding(n)) == s
  {
    assert s + "" == s;
    assert (s + "=")[..|s|] == s;
    assert (s + "==")[..|s| + 1] == s + "=";
  }

  /** Converting the standard encoding gives the string the encoder gives. */
  lemma StandardConverts(bytes: seq<Byte>)
    ensures Base64ToBase64Url(StandardBase64(bytes)) == Encode(bytes)
  {
    var s := MapUrlSafe(Symbols(Sextets(bytes)));
    StandardIsPadded(bytes);
    NothingToStrip(Sextets(bytes));
    assert MapUrlSafe(StandardBase64(bytes)) == s + Padding(|bytes|);
    PaddingStripped(s, |bytes|);
  }

  /* ---- the inverse ---- */

  function DecodeGroup(s: string): (r: seq<Byte>)
    requires 2 <= |s| <= 4
    ensures |r| == |s| - 1
  {
    var w, x := Value(s[0]), Value(s[1]);
    [w * 4 + x / 16]
    + (if |s| > 2 then [x % 16 * 16 + Value(s[2]) / 4] else [])
    + (if |s| > 3 then [Value(s[2]) % 4 * 64 + Value(s[3])] else [])
  }

  function Decode(url: string): seq<Byte> {
    if |url| < 2 then []
    else if |url| <= 4 then DecodeGroup(url)
    else DecodeGroup(url[..4]) + Decode(url[4..])
  }

  lemma Reassembled(a: Byte, b: Byte, c: Byte)
    ensures a / 4 * 4 + (a % 4 * 16 + b / 16) / 16 == a
    ensures (a % 4 * 16 + b / 16) % 16 * 16 + (b % 16 * 4 + c / 64) / 4 == b
    ensures (b % 16 * 4 + c / 64) % 4 * 64 + c % 64 == c
  {
    assert (a % 4 * 16 + b / 16) / 16 == a % 4;
    assert (a % 4 * 16 + b / 16) % 16 == b / 16;
    assert (b % 16 * 4 + c / 64) / 4 == b % 16;
    assert (b % 16 * 4 + c / 64) % 4 == c / 64;
  }

  lemma GroupRoundTrip(group: seq<Byte>)
    requires 1 <= |group| <= 3
    ensures DecodeGroup(MapUrlSafe(Symbols(GroupSextets(group)))) == group
  {
    var values := GroupSextets(group);
    var s := MapUrlSafe(Symbols(values));
    forall k | 0 <= k < |values| ensures Value(s[k]) == values[k] {
      SymbolValue(values[k]);
    }
    Reassembled(group[0], At(group, 1), At(group, 2));
  }

  /** The first four symbols are those of the first group. */
  lemma FirstGroup(bytes: seq<Byte>)
    requires |bytes| > 3
    ensures var s := MapUrlSafe(Symbols(Sextets(bytes)));
            && |s| > 4 && s[..4] == MapUrlSafe(Symbols(GroupSextets(bytes[..3])))
            && s[4..] == MapUrlSafe(Symbols(Sextets(bytes[3..])))
  {
    SextetCount(bytes);
    SextetCount(bytes[3..]);
    hide Symbol, UrlSafe;
  }

  lemma OneGroup(bytes: seq<Byte>)
    requires 1 <= |bytes| <= 3
    ensures Decode(MapUrlSafe(Symbols(Sextets(bytes)))) == bytes
  {
    hide Symbol, UrlSafe, GroupSextets, DecodeGroup;
    assert Sextets(bytes) == GroupSextets(bytes);
    assert |MapUrlSafe(Symbols(GroupSextets(bytes)))| == |bytes| + 1;
    hide MapUrlSafe, Symbols, Sextets;
    GroupRoundTrip(bytes);
  }

  lemma NoGroup()
    ensures Decode(MapUrlSafe(Symbols(Sextets([])))) == []
  {
  }

  lemma {:induction false} SextetsRoundTrip(bytes: seq<Byte>)
    ensures Decode(MapUrlSafe(Symbols(Sextets(bytes)))) == bytes
  {
    hide Symbols, MapUrlSafe, GroupSextets, DecodeGroup, Sextets;
    if bytes == [] {
      NoGroup();
    } else if |bytes| <= 3 {
      OneGroup(bytes);
    } else {
      GroupRoundTrip(bytes[..3]);
      SextetsRoundTrip(bytes[3..]);
      FirstGroup(bytes);
      assert bytes[..3] + bytes[3..] == bytes;
    }
  }

  /** Decoding undoes encoding, so different byte sequences never share a string. */
  lemma RoundTrip(bytes: seq<Byte>)
    ensures Decode(Encode(bytes)) == bytes
  {
    NothingToStrip(Sextets(bytes));
    SextetsRoundTrip(bytes);
  }
}
