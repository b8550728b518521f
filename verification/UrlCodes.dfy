/** The percent codec: section 2.1 of RFC 3986, with `+` for a space. */
module UrlCodes {

  type Byte = bv8

  const Percent: Byte := 0x25
  const Plus: Byte := 0x2b
  const Space: Byte := 0x20

  predicate IsDigit(c: Byte) {
    0x30 <= c <= 0x39
  }

  predicate IsAlnum(c: Byte) {
    IsDigit(c) || 0x41 <= c <= 0x5a || 0x61 <= c <= 0x7a
  }

  /** The unreserved characters of section 2.3 of RFC 3986. */
  predicate IsUnreserved(c: Byte) {
    IsAlnum(c) || c == 0x2d || c == 0x5f || c == 0x2e || c == 0x7e
  }

  function ToLower(c: Byte): Byte {
    if 0x41 <= c <= 0x5a then c + 0x20 else c
  }

  function FromHex(c: Byte): Byte {
    if IsDigit(c) then c - 0x30 else ToLower(c) - 0x61 + 10
  }

  /** The entry of the table of hex digits. */
  function ToHex(code: Byte): Byte {
    var n := code & 15;
    if n < 10 then 0x30 + n else 0x61 + (n - 10)
  }

  function Unescape(hi: Byte, lo: Byte): Byte {
    (FromHex(hi) << 4) | FromHex(lo)
  }

  predicate IsHexDigit(c: Byte) {
    IsDigit(c) || 0x61 <= c <= 0x66
  }

  lemma HexRoundTrip(c: Byte)
    ensures Unescape(ToHex(c >> 4), ToHex(c & 15)) == c
    ensures IsHexDigit(ToHex(c >> 4)) && IsHexDigit(ToHex(c & 15))
  {
  }

  lemma HexUnique(hi: Byte, lo: Byte)
    requires IsHexDigit(hi) && IsHexDigit(lo)
    ensures var c := Unescape(hi, lo); ToHex(c >> 4) == hi && ToHex(c & 15) == lo
  {
  }

  /** Escapes mean the same in upper and in lower case. */
  lemma EscapesIgnoreCase(hi: Byte, lo: Byte)
    requires IsHexDigit(ToLower(hi)) && IsHexDigit(ToLower(lo))
    ensures Unescape(hi, lo) == Unescape(ToLower(hi), ToLower(lo))
    ensures ToHex(Unescape(hi, lo) >> 4) == ToLower(hi) && ToHex(Unescape(hi, lo) & 15) == ToLower(lo)
  {
  }

  // ----- the codec on strings

  function EncodeByte(c: Byte): seq<Byte> {
    if IsUnreserved(c) then [c]
    else if c == Space then [Plus]
    else [Percent, ToHex(c >> 4), ToHex(c & 15)]
  }

  function Encoded(s: seq<Byte>): seq<Byte> {
    if s == [] then [] else Encoded(s[..|s| - 1]) + EncodeByte(s[|s| - 1])
  }

  /** Decoding; an escape that is cut short loses its `%`. */
  function Decoded(s: seq<Byte>): (r: seq<Byte>)
    ensures |r| <= |s|
  {
    if s == [] then []
    else if s[0] == Percent then
      if |s| >= 3 then [Unescape(s[1], s[2])] + Decoded(s[3..]) else Decoded(s[1..])
    else [if s[0] == Plus then Space else s[0]] + Decoded(s[1..])
  }

  ghost predicate NulFree(s: seq<Byte>) {
    forall i | 0 <= i < |s| :: s[i] != 0
  }

  /** What the encoder produces: unreserved characters, `+`, and escapes in lower-case digits of
      bytes that are neither. */
  predicate Canonical(t: seq<Byte>) {
    if t == [] then true
    else if t[0] == Percent then
      |t| >= 3 && IsHexDigit(t[1]) && IsHexDigit(t[2]) && Canonical(t[3..])
      && !IsUnreserved(Unescape(t[1], t[2])) && Unescape(t[1], t[2]) != Space
    else (IsUnreserved(t[0]) || t[0] == Plus) && Canonical(t[1..])
  }

  lemma {:induction false} EncodedFront(c: Byte, s: seq<Byte>)
    ensures Encoded([c] + s) == EncodeByte(c) + Encoded(s)
  {
    var t := [c] + s;
    if s == [] {
      assert t[..|t| - 1] == [];
    } else {
      assert t[..|t| - 1] == [c] + s[..|s| - 1];
      EncodedFront(c, s[..|s| - 1]);
    }
  }

  lemma DecodeOne(c: Byte, rest: seq<Byte>)
    ensures Decoded(EncodeByte(c) + rest) == [c] + Decoded(rest)
    ensures Canonical(EncodeByte(c) + rest) == Canonical(rest)
  {
    var t := EncodeByte(c) + rest;
    HexRoundTrip(c);
    assert t[|EncodeByte(c)|..] == rest;
  }

  /** Decoding what was encoded gives the string back, and the encoder keeps to its alphabet. */
  lemma {:induction false} DecodeEncode(s: seq<Byte>)
    ensures Decoded(Encoded(s)) == s && Canonical(Encoded(s))
  {
    if s != [] {
      assert s == [s[0]] + s[1..];
      EncodedFront(s[0], s[1..]);
      DecodeOne(s[0], Encoded(s[1..]));
      DecodeEncode(s[1..]);
    }
  }

  /** Encoding what was decoded gives back every string the encoder can produce. */
  lemma {:induction false} EncodeDecode(t: seq<Byte>)
    requires Canonical(t)
    ensures Encoded(Decoded(t)) == t
    decreases |t|
  {
    hide Canonical, EncodeByte;
    if t != [] {
      var c, rest := CanonicalFront(t);
      EncodeDecode(rest);
      EncodedFront(c, Decoded(rest));
    }
  }

  lemma CanonicalFront(t: seq<Byte>) returns (c: Byte, rest: seq<Byte>)
    requires t != [] && Canonical(t)
    ensures t == EncodeByte(c) + rest && Canonical(rest) && |rest| < |t| && Decoded(t) == [c] + Decoded(rest)
  {
    hide IsUnreserved;
    if t[0] == Percent {
      c, rest := Unescape(t[1], t[2]), t[3..];
      HexUnique(t[1], t[2]);
      assert t == [t[0], t[1], t[2]] + rest;
    } else if t[0] == Plus {
      c, rest := Space, t[1..];
      SpaceAndPlus();
    } else {
      c, rest := t[0], t[1..];
    }
  }

  lemma SpaceAndPlus()
    ensures !IsUnreserved(Space) && !IsUnreserved(Plus) && !IsUnreserved(Percent)
  {
  }

  lemma {:induction false} CanonicalIsNulFree(t: seq<Byte>)
    requires Canonical(t)
    ensures NulFree(t)
  {
    if t != [] {
      var n := if t[0] == Percent then 3 else 1;
      CanonicalIsNulFree(t[n..]);
      assert forall i | n <= i < |t| :: t[i] == t[n..][i - n];
    }
  }

  // ----- what the codes of the characters are

  /** The digits `0` to `9` and the letters `a` to `f`. */
  const HexDigits: seq<Byte> := [0x30, 0x31, 0x32, 0x33, 0x34, 0x35, 0x36, 0x37, 0x38, 0x39, 0x61, 0x62, 0x63, 0x64, 0x65, 0x66]

  lemma HexDigitAt(c: Byte)
    ensures (c >> 4) as int < |HexDigits| && (c & 15) as int < |HexDigits|
    ensures ToHex(c >> 4) == HexDigits[(c >> 4) as int] && ToHex(c & 15) == HexDigits[(c & 15) as int]
  {
    HexDigitOf(c >> 4);
    HexDigitOf(c & 15);
  }

  lemma HexDigitOf(n: Byte)
    requires n < 16
    ensures (n as int) < |HexDigits| && ToHex(n) == HexDigits[n as int]
  {
  }

  /** A single character is encoded as itself exactly if it is a digit, a letter, `-`, `.`, `_` or `~`; a
      space becomes `+`, and every other one `%` and its two digits. */
  lemma EncodedOne(c: Byte)
    ensures (c >> 4) as int < |HexDigits| && (c & 15) as int < |HexDigits|
    ensures Encoded([c]) ==
      if 0x30 <= c <= 0x39 || 0x41 <= c <= 0x5a || 0x61 <= c <= 0x7a || c == 0x2d || c == 0x2e || c == 0x5f || c == 0x7e then [c]
      else if c == 0x20 then [0x2b]
      else [0x25, HexDigits[(c >> 4) as int], HexDigits[(c & 15) as int]]
  {
    EncodedFront(c, []);
    assert [c] + [] == [c];
    assert EncodeByte(c) + [] == EncodeByte(c);
    HexDigitAt(c);
    hide ToHex;
  }

  /** The encoding of a string is those of its characters, one after the other. */
  lemma {:induction false} EncodedJoin(a: seq<Byte>, b: seq<Byte>)
    ensures Encoded(a + b) == Encoded(a) + Encoded(b)
    decreases |b|
  {
    if b == [] {
      assert a + b == a;
    } else {
      assert (a + b)[..|a + b| - 1] == a + b[..|b| - 1];
      EncodedJoin(a, b[..|b| - 1]);
    }
  }

  /** Decoding a string that holds no `%` only makes spaces of its `+`. */
  lemma {:induction false} DecodedWithoutEscapes(s: seq<Byte>)
    requires Percent !in s
    ensures |Decoded(s)| == |s| && forall i | 0 <= i < |s| :: Decoded(s)[i] == if s[i] == 0x2b then 0x20 else s[i]
  {
    if s != [] {
      assert s == [s[0]] + s[1..];
      DecodedWithoutEscapes(s[1..]);
    }
  }

  /** And what comes behind it is decoded on its own. */
  lemma {:induction false} DecodedBehind(s: seq<Byte>, t: seq<Byte>)
    requires Percent !in s
    ensures Decoded(s + t) == Decoded(s) + Decoded(t)
  {
    if s == [] {
      assert s + t == t;
    } else {
      assert s == [s[0]] + s[1..];
      assert (s + t)[1..] == s[1..] + t;
      DecodedBehind(s[1..], t);
    }
  }

  /** A `%` with fewer than two characters behind it is dropped, and they are kept. */
  lemma CutEscapeIsDropped(s: seq<Byte>, x: Byte)
    requires Percent !in s && x != Percent
    ensures Decoded(s + [0x25]) == Decoded(s) && Decoded(s + [0x25, x]) == Decoded(s + [x])
  {
    DecodedBehind(s, [0x25]);
    DecodedBehind(s, [0x25, x]);
    DecodedBehind(s, [x]);
    assert [0x25 as Byte, x][1..] == [x];
  }

  // ----- C strings

  /** The part of a string that its `c_str()` shows: up to the first NUL. */
  function CString(s: seq<Byte>): seq<Byte> {
    if s == [] || s[0] == 0 then [] else [s[0]] + CString(s[1..])
  }

  lemma {:induction false} CStringOf(s: seq<Byte>)
    ensures NulFree(CString(s)) && (CString(s) == s <==> NulFree(s))
    ensures CString(s) <= s && (|CString(s)| < |s| ==> s[|CString(s)|] == 0)
  {
    if s != [] && s[0] != 0 {
      CStringOf(s[1..]);
      assert s == [s[0]] + s[1..];
    }
  }

  /** The character a pointer into a NUL-terminated string reads: up to the NUL, and no further. */
  function At(s: seq<Byte>, i: nat): Byte
    requires i <= |s|
  {
    if i < |s| then s[i] else 0
  }

  /** `url_encode` on a C string: no write is past the allocation, and the NUL it ends with is the
      first one. */
  method EncodeC(str: seq<Byte>) returns (buf: array<Byte>, len: nat)
    requires NulFree(str)
    ensures buf.Length == 3 * |str| + 1 && len < buf.Length
    ensures buf[..len] == Encoded(str) && buf[len] == 0 && NulFree(buf[..len])
  {
    hide EncodeByte, Canonical;
    buf := new Byte[3 * |str| + 1];
    len := 0;
    var pstr := 0;
    while At(str, pstr) != 0
      invariant pstr <= |str| && len <= 3 * pstr
      invariant buf[..len] == Encoded(str[..pstr])
      decreases |str| - pstr
    {
      assert str[..pstr + 1][..pstr] == str[..pstr];
      len := PutEncoded(buf, len, At(str, pstr));
      pstr := pstr + 1;
    }
    assert str[..pstr] == str;
    buf[len] := 0;
    DecodeEncode(str);
    CanonicalIsNulFree(Encoded(str));
  }

  method PutEncoded(buf: array<Byte>, len: nat, c: Byte) returns (n: nat)
    requires len + 3 <= buf.Length
    modifies buf
    ensures len < n <= len + 3 && buf[..n] == old(buf[..len]) + EncodeByte(c)
  {
    hide ToHex, IsUnreserved;
    if IsUnreserved(c) {
      buf[len] := c;
      n := len + 1;
    } else if c == Space {
      buf[len] := Plus;
      n := len + 1;
    } else {
      buf[len] := Percent;
      buf[len + 1] := ToHex(c >> 4);
      buf[len + 2] := ToHex(c & 15);
      n := len + 3;
    }
  }

  method Put(buf: array<Byte>, len: nat, c: Byte) returns (n: nat)
    requires len < buf.Length
    modifies buf
    ensures n == len + 1 && buf[..n] == old(buf[..len]) + [c]
  {
    buf[len] := c;
    n := len + 1;
  }

  /** One round of the decoder's loop on values. */
  lemma DecodeAt(s: seq<Byte>, i: nat)
    requires NulFree(s) && i < |s|
    ensures var c := s[i];
      Decoded(s[i..]) ==
        if c == Percent then
          if i + 2 < |s| then [Unescape(s[i + 1], s[i + 2])] + Decoded(s[i + 3..]) else Decoded(s[i + 1..])
        else [if c == Plus then Space else c] + Decoded(s[i + 1..])
  {
    var t := s[i..];
    assert t[1..] == s[i + 1..];
    assert |t| >= 3 ==> t[3..] == s[i + 3..];
  }

  /** `url_decode` on a C string. */
  method DecodeC(str: seq<Byte>) returns (buf: array<Byte>, len: nat)
    requires NulFree(str)
    ensures buf.Length == |str| + 1 && len < buf.Length
    ensures buf[..len] == Decoded(str) && buf[len] == 0
  {
    hide Decoded;
    buf := new Byte[|str| + 1];
    len := 0;
    var pstr := 0;
    assert str[0..] == str;
    while At(str, pstr) != 0
      invariant pstr <= |str| && len <= pstr
      invariant Decoded(str) == buf[..len] + Decoded(str[pstr..])
      decreases |str| - pstr
    {
      ghost var before := buf[..len];
      ghost var out;
      ghost var rest := Decoded(str[pstr..]);
      pstr, len, out := DecodeStep(str, pstr, buf, len);
      assert before + rest == before + out + Decoded(str[pstr..]);
    }
    DecodeEnd(str);
    buf[len] := 0;
  }

  /** One round of the loop: at most one character is written, at `len`. */
  method DecodeStep(str: seq<Byte>, p: nat, buf: array<Byte>, len: nat) returns (q: nat, n: nat, ghost out: seq<Byte>)
    requires NulFree(str) && p < |str| && len < buf.Length
    modifies buf
    ensures p < q <= |str| && len <= n <= len + 1
    ensures buf[..n] == old(buf[..len]) + out && Decoded(str[p..]) == out + Decoded(str[q..])
  {
    DecodeAt(str, p);
    hide Unescape, Decoded;
    var c := At(str, p);
    q, n, out := p, len, [];
    if c == Percent {
      if At(str, q + 1) != 0 && At(str, q + 2) != 0 {
        out := [Unescape(str[p + 1], str[p + 2])];
        n := Put(buf, len, Unescape(At(str, q + 1), At(str, q + 2)));
        q := q + 2;
      }
    } else if c == Plus {
      out := [Space];
      n := Put(buf, len, Space);
    } else {
      out := [c];
      n := Put(buf, len, c);
    }
    q := q + 1;
  }

  lemma DecodeEnd(s: seq<Byte>)
    ensures Decoded(s[|s|..]) == []
  {
  }

  method UrlEncode(str: seq<Byte>) returns (r: seq<Byte>)
    ensures r == Encoded(CString(str))
  {
    CStringOf(str);
    var buf, len := EncodeC(CString(str));
    r := CString(buf[..]);
    Terminated(buf[..], len);
  }

  method UrlDecode(str: seq<Byte>) returns (r: seq<Byte>)
    ensures r == CString(Decoded(CString(str)))
  {
    CStringOf(str);
    var buf, len := DecodeC(CString(str));
    r := CString(buf[..]);
    TerminatedPrefix(buf[..], len);
  }

  /** A buffer with a NUL at `n` shows what its first `n` characters show. */
  lemma {:induction false} TerminatedPrefix(s: seq<Byte>, n: nat)
    requires n < |s| && s[n] == 0
    ensures CString(s) == CString(s[..n])
    decreases n
  {
    if n > 0 && s[0] != 0 {
      TerminatedPrefix(s[1..], n - 1);
      assert s[..n][1..] == s[1..][..n - 1];
    }
  }

  lemma Terminated(s: seq<Byte>, n: nat)
    requires n < |s| && s[n] == 0 && NulFree(s[..n])
    ensures CString(s) == s[..n]
  {
    TerminatedPrefix(s, n);
    CStringOf(s[..n]);
  }

  /** Encoding and then decoding gives the string up to its first NUL: the whole string exactly if
      it has none. */
  method RoundTrip(str: seq<Byte>) returns (encoded: seq<Byte>, decoded: seq<Byte>)
    ensures decoded == CString(str)
    ensures decoded == str <==> NulFree(str)
    ensures Canonical(encoded)
  {
    CStringOf(str);
    encoded := UrlEncode(str);
    DecodeEncode(CString(str));
    CanonicalIsNulFree(encoded);
    CStringOf(encoded);
    decoded := UrlDecode(encoded);
    CStringOf(CString(str));
  }
}
