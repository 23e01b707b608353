/** Unpadded base64url (utils/jwt.js; section 5 of RFC 4648) over the standard base64 the runtime provides. */
module Base64Url {
  import opened Wrappers
  import opened Sorting

  type Byte = x: int | 0 <= x < 256
  type Sextet = x: int | 0 <= x < 64

  // ----- The runtime's base64 -----

  function ToChar(x: Sextet): char {
    if x < 26 then 'A' + x as char
    else if x < 52 then 'a' + (x - 26) as char
    else if x < 62 then '0' + (x - 52) as char
    else if x == 62 then '+'
    else '/'
  }

  function FromChar(c: char): Option<Sextet> {
    if 'A' <= c <= 'Z' then Some((c - 'A') as int)
    else if 'a' <= c <= 'z' then Some((c - 'a') as int + 26)
    else if '0' <= c <= '9' then Some((c - '0') as int + 52)
    else if c == '+' then Some(62)
    else if c == '/' then Some(63)
    else None
  }

  /** `low` bits of one value followed by the top of the next: the middle sextets and bytes of a group. */
  function Splice(x: int, keep: int, shift: int, y: int, drop: int): int
    requires keep > 0 && drop > 0
  {
    x % keep * shift + y / drop
  }

  /** Three bytes give four sextets; a shorter last group is filled with zero bits. */
  function ToSextets(b: seq<Byte>): seq<Sextet> {
    if |b| == 0 then []
    else if |b| == 1 then [b[0] / 4, Splice(b[0], 4, 16, 0, 16)]
    else if |b| == 2 then [b[0] / 4, Splice(b[0], 4, 16, b[1], 16), Splice(b[1], 16, 4, 0, 64)]
    else [b[0] / 4, Splice(b[0], 4, 16, b[1], 16), Splice(b[1], 16, 4, b[2], 64), b[2] % 64] + ToSextets(b[3..])
  }

  function Bytes(x: seq<Sextet>): seq<Byte> {
    if |x| < 2 then []
    else if |x| == 2 then [Splice(x[0], 64, 4, x[1], 16)]
    else if |x| == 3 then [Splice(x[0], 64, 4, x[1], 16), Splice(x[1], 16, 16, x[2], 4)]
    else [Splice(x[0], 64, 4, x[1], 16), Splice(x[1], 16, 16, x[2], 4), Splice(x[2], 4, 64, x[3], 1)] + Bytes(x[4..])
  }

  function Chars(x: seq<Sextet>): string {
    seq(|x|, i requires 0 <= i < |x| => ToChar(x[i]))
  }

  function Repeat(c: char, n: nat): string {
    seq(n, _ => c)
  }

  /** Four characters for three bytes, padded to a multiple of four. */
  function ToBase64(b: seq<Byte>): string {
    Chars(ToSextets(b)) + Repeat('=', (3 - |b| % 3) % 3)
  }

  /** Decoding stops at the first padding character and passes over characters outside the alphabet. */
  function Sextets(s: string): seq<Sextet> {
    if s == "" || s[0] == '=' then []
    else if FromChar(s[0]).Some? then [FromChar(s[0]).value] + Sextets(s[1..])
    else Sextets(s[1..])
  }

  function FromBase64(s: string): seq<Byte> {
    Bytes(Sextets(s))
  }

  // ----- The URL-safe form -----

  function Replace(s: string, from: char, to: char): string {
    seq(|s|, i requires 0 <= i < |s| => if s[i] == from then to else s[i])
  }

  function Base64UrlEncode(b: seq<Byte>): string {
    Filter((c: char) => c != '=', Replace(Replace(ToBase64(b), '+', '-'), '/', '_'))
  }

  function Pad(s: string): string {
    if |s| % 4 != 0 then s + Repeat('=', 4 - |s| % 4) else s
  }

  function Base64UrlDecode(s: string): seq<Byte> {
    FromBase64(Pad(Replace(Replace(s, '-', '+'), '_', '/')))
  }

  // ----- Bits -----

  lemma FirstByte(a: Byte, b: Byte)
    ensures Splice(a / 4, 64, 4, Splice(a, 4, 16, b, 16), 16) == a
  {
    assert (a % 4 * 16 + b / 16) / 16 == a % 4;
  }

  lemma SecondByte(a: Byte, b: Byte, c: Byte)
    ensures Splice(Splice(a, 4, 16, b, 16), 16, 16, Splice(b, 16, 4, c, 64), 4) == b
  {
    assert (a % 4 * 16 + b / 16) % 16 == b / 16;
    assert (b % 16 * 4 + c / 64) / 4 == b % 16;
  }

  lemma ThirdByte(b: Byte, c: Byte)
    ensures Splice(Splice(b, 16, 4, c, 64), 4, 64, c % 64, 1) == c
  {
    assert (b % 16 * 4 + c / 64) % 4 == c / 64;
  }

  lemma GroupRoundTrip(a: Byte, b: Byte, c: Byte)
    ensures Splice(a / 4, 64, 4, Splice(a, 4, 16, b, 16), 16) == a
    ensures Splice(Splice(a, 4, 16, b, 16), 16, 16, Splice(b, 16, 4, c, 64), 4) == b
    ensures Splice(Splice(b, 16, 4, c, 64), 4, 64, c % 64, 1) == c
  {
    FirstByte(a, b);
    SecondByte(a, b, c);
    ThirdByte(b, c);
  }

  lemma OneGroup(group: seq<Sextet>, rest: seq<Sextet>)
    requires |group| == 4
    ensures Bytes(group + rest) == Bytes(group) + Bytes(rest)
  {
    var x := group + rest;
    assert x[4..] == rest && x[0] == group[0] && x[1] == group[1] && x[2] == group[2] && x[3] == group[3];
    assert group[4..] == [] && Bytes([]) == [];
    assert Bytes(group) == [Splice(x[0], 64, 4, x[1], 16), Splice(x[1], 16, 16, x[2], 4), Splice(x[2], 4, 64, x[3], 1)];
  }

  lemma FullGroup(a: Byte, b: Byte, c: Byte)
    ensures Bytes(ToSextets([a, b, c])) == [a, b, c]
  {
    GroupRoundTrip(a, b, c);
    assert ToSextets([a, b, c]) == [a / 4, Splice(a, 4, 16, b, 16), Splice(b, 16, 4, c, 64), c % 64];
  }

  lemma OneByte(a: Byte)
    ensures Bytes(ToSextets([a])) == [a]
  {
    GroupRoundTrip(a, 0, 0);
    assert ToSextets([a]) == [a / 4, Splice(a, 4, 16, 0, 16)];
  }

  lemma TwoBytes(a: Byte, b: Byte)
    ensures Bytes(ToSextets([a, b])) == [a, b]
  {
    GroupRoundTrip(a, b, 0);
    assert ToSextets([a, b]) == [a / 4, Splice(a, 4, 16, b, 16), Splice(b, 16, 4, 0, 64)];
  }

  lemma SplitGroup(b: seq<Byte>)
    requires |b| >= 3
    ensures ToSextets(b) == ToSextets([b[0], b[1], b[2]]) + ToSextets(b[3..])
    ensures |ToSextets([b[0], b[1], b[2]])| == 4
  {
    assert [b[0], b[1], b[2]][3..] == [];
  }

  lemma {:induction false} BytesOfSextets(b: seq<Byte>)
    ensures Bytes(ToSextets(b)) == b
  {
    if |b| == 1 {
      OneByte(b[0]);
      assert b == [b[0]];
    } else if |b| == 2 {
      TwoBytes(b[0], b[1]);
      assert b == [b[0], b[1]];
    } else if |b| > 2 {
      FullGroup(b[0], b[1], b[2]);
      BytesOfSextets(b[3..]);
      SplitGroup(b);
      OneGroup(ToSextets([b[0], b[1], b[2]]), ToSextets(b[3..]));
      assert b == [b[0], b[1], b[2]] + b[3..];
    }
  }

  lemma {:induction false} SextetCount(b: seq<Byte>)
    ensures |ToSextets(b)| == (4 * |b| + 2) / 3
  {
    if |b| > 2 {
      SextetCount(b[3..]);
    }
  }

  // ----- Characters -----

  predicate UrlSafe(c: char) {
    'A' <= c <= 'Z' || 'a' <= c <= 'z' || '0' <= c <= '9' || c == '-' || c == '_'
  }

  function UrlChar(c: char): char {
    if c == '+' then '-' else if c == '/' then '_' else c
  }

  lemma CharRoundTrip(x: Sextet)
    ensures FromChar(ToChar(x)) == Some(x) && ToChar(x) != '=' && ToChar(x) != '-' && ToChar(x) != '_'
    ensures UrlSafe(UrlChar(ToChar(x)))
  {}

  lemma {:induction false} SextetsOfChars(x: seq<Sextet>, n: nat)
    ensures Sextets(Chars(x) + Repeat('=', n)) == x
  {
    var s := Chars(x) + Repeat('=', n);
    if x != [] {
      CharRoundTrip(x[0]);
      assert s[1..] == Chars(x[1..]) + Repeat('=', n);
      SextetsOfChars(x[1..], n);
      assert x == [x[0]] + x[1..];
    }
  }

  function UrlText(x: seq<Sextet>): string {
    seq(|x|, i requires 0 <= i < |x| => UrlChar(ToChar(x[i])))
  }

  lemma {:induction false} KeepAll(p: char -> bool, s: string)
    requires forall i | 0 <= i < |s| :: p(s[i])
    ensures Filter(p, s) == s
  {
    if s != "" {
      KeepAll(p, s[1..]);
      assert s == [s[0]] + s[1..];
    }
  }

  lemma {:induction false} DropAll(p: char -> bool, s: string)
    requires forall i | 0 <= i < |s| :: !p(s[i])
    ensures Filter(p, s) == ""
  {
    if s != "" {
      DropAll(p, s[1..]);
    }
  }

  /** Encoding drops the padding and leaves URL-safe characters only. */
  lemma EncodeIs(b: seq<Byte>)
    ensures Base64UrlEncode(b) == UrlText(ToSextets(b))
  {
    var x, n := ToSextets(b), (3 - |b| % 3) % 3;
    var keep := (c: char) => c != '=';
    forall i | 0 <= i < |x| ensures keep(UrlText(x)[i]) && ToChar(x[i]) != '_' {
      CharRoundTrip(x[i]);
    }
    assert Replace(Replace(ToBase64(b), '+', '-'), '/', '_') == UrlText(x) + Repeat('=', n);
    FilterAppend(keep, UrlText(x), Repeat('=', n));
    KeepAll(keep, UrlText(x));
    DropAll(keep, Repeat('=', n));
  }

  lemma PlainAgain(x: seq<Sextet>)
    ensures Replace(Replace(UrlText(x), '-', '+'), '_', '/') == Chars(x)
  {
    forall i | 0 <= i < |x| ensures ToChar(x[i]) != '-' && ToChar(x[i]) != '_' {
      CharRoundTrip(x[i]);
    }
  }

  // ----- Round trip -----

  /** Decoding undoes encoding for byte strings of every length. */
  lemma RoundTrip(b: seq<Byte>)
    ensures Base64UrlDecode(Base64UrlEncode(b)) == b
  {
    var x := ToSextets(b);
    EncodeIs(b);
    PlainAgain(x);
    var n := if |x| % 4 != 0 then 4 - |x| % 4 else 0;
    assert Pad(Chars(x)) == Chars(x) + Repeat('=', n);
    SextetsOfChars(x, n);
    BytesOfSextets(b);
  }

  /** The text is URL-safe, unpadded and ceil(4n/3) characters long. */
  lemma EncodedText(b: seq<Byte>)
    ensures forall i | 0 <= i < |Base64UrlEncode(b)| :: UrlSafe(Base64UrlEncode(b)[i])
    ensures |Base64UrlEncode(b)| == (4 * |b| + 2) / 3
  {
    EncodeIs(b);
    SextetCount(b);
    forall i | 0 <= i < |ToSextets(b)| ensures UrlSafe(UrlText(ToSextets(b))[i]) {
      CharRoundTrip(ToSextets(b)[i]);
    }
  }

  lemma EncodeInjective(a: seq<Byte>, b: seq<Byte>)
    requires Base64UrlEncode(a) == Base64UrlEncode(b)
    ensures a == b
  {
    RoundTrip(a);
    RoundTrip(b);
  }
}
