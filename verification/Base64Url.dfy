/**
 The base64url codec of src/lib/device-identity.ts.  `btoa` and `atob` are modelled after section 4 of RFC 4648 and the
 forgiving base64 decode of the WHATWG Infra Standard, which every browser's `atob` follows: it ignores white space,
 takes padding as optional and does not look at the unused low bits of the last character.
 */
module Base64Url {
  import opened Options
  import opened Numbers

  type Byte = x: int | 0 <= x < 256
  type Sextet = x: int | 0 <= x < 64

  /******* The alphabets *******/

  function StandardChar(v: Sextet): char
  {
    if v < 26 then 'A' + v as char
    else if v < 52 then 'a' + (v - 26) as char
    else if v < 62 then '0' + (v - 52) as char
    else if v == 62 then '+' else '/'
  }

  function StandardValue(c: char): (v: Option<int>)
    ensures v.Some? ==> 0 <= v.value < 64 && StandardChar(v.value) == c
  {
    if 'A' <= c <= 'Z' then Some(c as int - 'A' as int)
    else if 'a' <= c <= 'z' then Some(c as int - 'a' as int + 26)
    else if '0' <= c <= '9' then Some(c as int - '0' as int + 52)
    else if c == '+' then Some(62) else if c == '/' then Some(63) else None
  }

  lemma ValueOfChar(v: Sextet)
    ensures StandardValue(StandardChar(v)) == Some(v)
  {
  }

  /** The alphabet of section 5 of RFC 4648. */
  predicate InUrlAlphabet(c: char) { 'A' <= c <= 'Z' || 'a' <= c <= 'z' || '0' <= c <= '9' || c == '-' || c == '_' }

  predicate AllStandard(s: string) { forall i | 0 <= i < |s| :: StandardValue(s[i]).Some? }

  predicate IsBinary(s: string) { forall i | 0 <= i < |s| :: s[i] as int < 256 }

  function Binary(bytes: seq<Byte>): (s: string)
    ensures |s| == |bytes| && IsBinary(s) && forall i | 0 <= i < |s| :: s[i] as int == bytes[i]
  {
    seq(|bytes|, i requires 0 <= i < |bytes| => bytes[i] as char)
  }

  function Codes(s: string): (bytes: seq<Byte>)
    requires IsBinary(s)
    ensures |bytes| == |s| && forall i | 0 <= i < |s| :: bytes[i] == s[i] as int
  {
    seq(|s|, i requires 0 <= i < |s| => s[i] as int)
  }

  function Chars(v: seq<Sextet>): (s: string)
    ensures |s| == |v| && forall i | 0 <= i < |s| :: s[i] == StandardChar(v[i])
  {
    seq(|v|, i requires 0 <= i < |v| => StandardChar(v[i]))
  }

  function Values(s: string): (v: seq<Sextet>)
    requires AllStandard(s)
    ensures |v| == |s| && forall i | 0 <= i < |s| :: v[i] == StandardValue(s[i]).value
  {
    seq(|s|, i requires 0 <= i < |s| => StandardValue(s[i]).value)
  }

  lemma CharsAndValues(v: seq<Sextet>)
    ensures AllStandard(Chars(v)) && Values(Chars(v)) == v
  {
    forall i | 0 <= i < |v| ensures StandardValue(Chars(v)[i]) == Some(v[i]) {
      ValueOfChar(v[i]);
    }
  }

  /******* btoa *******/

  function Quad(a: Byte, b: Byte, c: Byte): (q: seq<Sextet>)
    ensures |q| == 4
  {
    [a / 4, a % 4 * 16 + b / 16, b % 16 * 4 + c / 64, c % 64]
  }

  /** Three bytes give four values; one or two bytes at the end are filled up with zero bits. */
  function Sextets(bytes: seq<Byte>): seq<Sextet>
  {
    if |bytes| == 0 then []
    else if |bytes| == 1 then Quad(bytes[0], 0, 0)[..2]
    else if |bytes| == 2 then Quad(bytes[0], bytes[1], 0)[..3]
    else Quad(bytes[0], bytes[1], bytes[2]) + Sextets(bytes[3..])
  }

  /** Padding needed after the values of n bytes. */
  function Missing(n: nat): (k: nat)
    ensures k <= 2
  {
    (3 - n % 3) % 3
  }

  function Equals(n: nat): string { seq(n, _ => '=') }

  function Btoa(s: string): string
    requires IsBinary(s)
  {
    Chars(Sextets(Codes(s))) + Equals(Missing(|s|))
  }

  /******* atob *******/

  predicate IsSpace(c: char) { c == ' ' || c == '\t' || c == '\n' || c == '\r' || c == 12 as char }

  function NoSpace(s: string): string
  {
    if s == "" then "" else if IsSpace(s[0]) then NoSpace(s[1..]) else [s[0]] + NoSpace(s[1..])
  }

  /** Without one or two final '='. */
  function DropPadding(s: string): string
  {
    if |s| >= 1 && s[|s| - 1] == '=' then
      if |s| >= 2 && s[|s| - 2] == '=' then s[..|s| - 2] else s[..|s| - 1]
    else s
  }

  function Unpadded(t: string): string { if |t| % 4 == 0 then DropPadding(t) else t }

  function Triple(p: Sextet, q: Sextet, r: Sextet, t: Sextet): (b: seq<Byte>)
    ensures |b| == 3
  {
    [p * 4 + q / 16, q % 16 * 16 + r / 4, r % 4 * 64 + t]
  }

  /** Four values give three bytes; two or three values at the end give one or two, and unused bits are dropped. */
  function Bytes(v: seq<Sextet>): seq<Byte>
    requires |v| % 4 != 1
  {
    if |v| == 0 then []
    else if |v| == 2 then Triple(v[0], v[1], 0, 0)[..1]
    else if |v| == 3 then Triple(v[0], v[1], v[2], 0)[..2]
    else Triple(v[0], v[1], v[2], v[3]) + Bytes(v[4..])
  }

  /** None where `atob` throws an InvalidCharacterError. */
  function Atob(s: string): (r: Option<string>)
    ensures r.Some? ==> IsBinary(r.value)
  {
    var u := Unpadded(NoSpace(s));
    if |u| % 4 == 1 || !AllStandard(u) then None else Some(Binary(Bytes(Values(u))))
  }

  /******* toBase64Url and fromBase64Url *******/

  function Replaced(s: string, from: char, to: char): (r: string)
    ensures |r| == |s| && forall i | 0 <= i < |s| :: r[i] == if s[i] == from then to else s[i]
  {
    seq(|s|, i requires 0 <= i < |s| => if s[i] == from then to else s[i])
  }

  function ToUrl(s: string): (r: string)
    ensures |r| == |s| && forall i | 0 <= i < |s| :: r[i] == if s[i] == '+' then '-' else if s[i] == '/' then '_'
      else s[i]
  {
    Replaced(Replaced(s, '+', '-'), '/', '_')
  }

  function FromUrl(s: string): (r: string)
    ensures |r| == |s| && forall i | 0 <= i < |s| :: r[i] == if s[i] == '-' then '+' else if s[i] == '_' then '/'
      else s[i]
  {
    Replaced(Replaced(s, '-', '+'), '_', '/')
  }

  function Trimmed(s: string): (r: string)
    ensures r <= s && (forall i | |r| <= i < |s| :: s[i] == '=') && (r == "" || r[|r| - 1] != '=')
  {
    if s != "" && s[|s| - 1] == '=' then Trimmed(s[..|s| - 1]) else s
  }

  function Encode(bytes: seq<Byte>): string { Trimmed(ToUrl(Btoa(Binary(bytes)))) }

  function Padding(n: nat): nat { (4 - n % 4) % 4 }

  function Repadded(value: string): string { FromUrl(value) + Equals(Padding(|value|)) }

  function Decode(value: string): Option<seq<Byte>>
  {
    var binary := Atob(Repadded(value));
    if binary.None? then None else Some(Codes(binary.value))
  }

  method ToBase64Url(bytes: array<Byte>) returns (r: string)
    ensures r == Encode(bytes[..])
  {
    var binary := "";
    for i := 0 to bytes.Length
      invariant binary == Binary(bytes[..i])
    {
      assert bytes[..i + 1] == bytes[..i] + [bytes[i]];
      binary := binary + [bytes[i] as char];
    }
    assert bytes[..] == bytes[..bytes.Length];
    r := Trimmed(ToUrl(Btoa(binary)));
  }

  method CharCodes(binary: string) returns (bytes: array<Byte>)
    requires IsBinary(binary)
    ensures fresh(bytes) && bytes[..] == Codes(binary)
  {
    bytes := new Byte[|binary|];
    for i := 0 to |binary|
      invariant forall k | 0 <= k < i :: bytes[k] == binary[k] as int
    {
      bytes[i] := binary[i] as int;
    }
  }

  method FromBase64Url(value: string) returns (r: Option<array<Byte>>)
    ensures r.Some? <==> Decode(value).Some?
    ensures r.Some? ==> fresh(r.value) && r.value[..] == Decode(value).value
  {
    var binary := Atob(Repadded(value));
    if binary.None? {
      return None;
    }
    var bytes := CharCodes(binary.value);
    r := Some(bytes);
  }

  /******* Round trip *******/

  lemma Parts(x: int, y: int)
    ensures 0 <= y < 4 ==> (x * 4 + y) / 4 == x && (x * 4 + y) % 4 == y
    ensures 0 <= y < 16 ==> (x * 16 + y) / 16 == x && (x * 16 + y) % 16 == y
    ensures 0 <= y < 64 ==> (x * 64 + y) / 64 == x && (x * 64 + y) % 64 == y
  {
  }

  lemma TripleOfQuad(a: Byte, b: Byte, c: Byte)
    ensures var q := Quad(a, b, c); Triple(q[0], q[1], q[2], q[3]) == [a, b, c]
    ensures c == 0 ==> Quad(a, b, c)[3] == 0
    ensures b == 0 && c == 0 ==> Quad(a, b, c)[2] == 0
  {
    var q := Quad(a, b, c);
    Parts(a % 4, b / 16);
    Parts(b % 16, c / 64);
    assert q[1] / 16 == a % 4 && q[1] % 16 == b / 16;
    assert q[2] / 4 == b % 16 && q[2] % 4 == c / 64;
  }

  lemma {:induction false} SextetsLength(bytes: seq<Byte>)
    ensures (|Sextets(bytes)| + Missing(|bytes|)) % 4 == 0 && |Sextets(bytes)| % 4 != 1
  {
    if |bytes| >= 3 { SextetsLength(bytes[3..]); }
  }

  lemma BytesStep(q: seq<Sextet>, rest: seq<Sextet>)
    requires |q| == 4 && |rest| % 4 != 1
    ensures Bytes(q + rest) == Triple(q[0], q[1], q[2], q[3]) + Bytes(rest)
  {
    assert (q + rest)[4..] == rest;
  }

  lemma {:induction false} BytesOfSextets(bytes: seq<Byte>)
    ensures |Sextets(bytes)| % 4 != 1 && Bytes(Sextets(bytes)) == bytes
  {
    SextetsLength(bytes);
    if |bytes| == 0 {
    } else if |bytes| < 3 {
      TripleOfQuad(bytes[0], if |bytes| > 1 then bytes[1] else 0, 0);
    } else {
      TripleOfQuad(bytes[0], bytes[1], bytes[2]);
      BytesOfSextets(bytes[3..]);
      BytesStep(Quad(bytes[0], bytes[1], bytes[2]), Sextets(bytes[3..]));
      assert bytes == [bytes[0], bytes[1], bytes[2]] + bytes[3..];
    }
  }

  lemma {:induction false} NothingToSkip(s: string)
    requires forall i | 0 <= i < |s| :: !IsSpace(s[i])
    ensures NoSpace(s) == s
  {
    if s != "" { NothingToSkip(s[1..]); }
  }

  lemma CodesOfBinary(bytes: seq<Byte>)
    ensures Codes(Binary(bytes)) == bytes
  {
  }

  lemma ExcessPadding(u: string, n: nat)
    requires n > 0
    ensures !AllStandard(u + Equals(n))
  {
    assert (u + Equals(n))[|u|] == '=';
  }

  lemma DropsTwo(u: string, n: nat)
    requires n >= 2
    ensures DropPadding(u + Equals(n)) == u + Equals(n - 2)
  {
  }

  lemma DropsOne(u: string, n: nat)
    requires n < 2 && (u == "" || u[|u| - 1] != '=')
    ensures DropPadding(u + Equals(n)) == u
  {
    if n == 0 { assert u + Equals(n) == u; }
  }

  predicate Accepted(u: string, n: nat)
  {
    AllStandard(u) && |u| % 4 != 1 && (n == 0 || (n <= 2 && (|u| + n) % 4 == 0))
  }

  lemma FittingPadding(u: string, n: nat)
    requires (u == "" || u[|u| - 1] != '=') && (n == 0 || (n <= 2 && (|u| + n) % 4 == 0))
    ensures Unpadded(u + Equals(n)) == u
  {
    var t := u + Equals(n);
    assert |t| == |u| + n;
    if n == 0 {
      assert t == u;
    } else if n == 1 {
      DropsOne(u, n);
    } else {
      DropsTwo(u, n);
      assert t == u + Equals(2) && u + Equals(0) == u;
    }
  }

  lemma OtherPadding(u: string, n: nat)
    requires n > 0 && (n > 2 || (|u| + n) % 4 != 0)
    ensures !AllStandard(Unpadded(u + Equals(n)))
  {
    ExcessPadding(u, n);
    if n > 2 {
      DropsTwo(u, n);
      ExcessPadding(u, n - 2);
    }
  }

  /** `atob` on a text and padding. */
  lemma AtobOfPadded(u: string, n: nat, s: string)
    requires NoSpace(s) == u + Equals(n) && (u == "" || u[|u| - 1] != '=')
    ensures Atob(s).Some? <==> Accepted(u, n)
    ensures Atob(s).Some? ==> Atob(s).value == Binary(Bytes(Values(u)))
  {
    if n == 0 || (n <= 2 && (|u| + n) % 4 == 0) {
      FittingPadding(u, n);
    } else {
      OtherPadding(u, n);
    }
  }

  lemma NoSpaceInside(u: string, n: nat)
    requires AllStandard(u)
    ensures NoSpace(u + Equals(n)) == u + Equals(n)
  {
    NothingToSkip(u + Equals(n));
  }

  lemma BtoaOfBinary(bytes: seq<Byte>)
    ensures Btoa(Binary(bytes)) == Chars(Sextets(bytes)) + Equals(Missing(|bytes|))
  {
    CodesOfBinary(bytes);
  }

  lemma WholeGroupsAccepted(v: seq<Sextet>, n: nat)
    requires n <= 2 && (|v| + n) % 4 == 0
    ensures Accepted(Chars(v), n)
  {
    CharsAndValues(v);
  }

  lemma AtobOfBtoa(bytes: seq<Byte>)
    ensures Atob(Btoa(Binary(bytes))) == Some(Binary(bytes))
  {
    var v, n := Sextets(bytes), Missing(|bytes|);
    BtoaOfBinary(bytes);
    CharsAndValues(v);
    NoSpaceInside(Chars(v), n);
    SextetsLength(bytes);
    WholeGroupsAccepted(v, n);
    AtobOfPadded(Chars(v), n, Btoa(Binary(bytes)));
    BytesOfSextets(bytes);
  }

  lemma TrimmedAt(s: string, body: string)
    requires body <= s && (forall i | |body| <= i < |s| :: s[i] == '=') && (body == "" || body[|body| - 1] != '=')
    ensures Trimmed(s) == body
  {
    var t := Trimmed(s);
    assert |t| >= |body|;
    assert |t| <= |body|;
  }

  lemma TrimmedUrl(u: string, n: nat)
    requires AllStandard(u)
    ensures Trimmed(ToUrl(u + Equals(n))) == ToUrl(u)
  {
    var s, body := ToUrl(u + Equals(n)), ToUrl(u);
    assert forall i | 0 <= i < |u| :: s[i] == body[i];
    assert body == s[..|u|];
    TrimmedAt(s, body);
  }

  /** The encoding is the values of the bytes written in the alphabet of section 5. */
  lemma EncodeIsSextets(bytes: seq<Byte>)
    ensures Encode(bytes) == ToUrl(Chars(Sextets(bytes)))
  {
    var v := Sextets(bytes);
    assert Btoa(Binary(bytes)) == Chars(v) + Equals(Missing(|bytes|)) by { BtoaOfBinary(bytes); }
    assert AllStandard(Chars(v)) by { CharsAndValues(v); }
    TrimmedUrl(Chars(v), Missing(|bytes|));
  }

  lemma FromUrlOfToUrl(s: string)
    requires AllStandard(s)
    ensures FromUrl(ToUrl(s)) == s
  {
  }

  lemma RepaddingLength(n: nat, u: nat)
    requires (u + Missing(n)) % 4 == 0
    ensures Padding(u) == Missing(n)
  {
  }

  lemma TextOfEncode(bytes: seq<Byte>)
    ensures FromUrl(Encode(bytes)) == Chars(Sextets(bytes)) && |Encode(bytes)| == |Sextets(bytes)|
  {
    EncodeIsSextets(bytes);
    CharsAndValues(Sextets(bytes));
    FromUrlOfToUrl(Chars(Sextets(bytes)));
  }

  lemma RepaddedIsBtoa(bytes: seq<Byte>)
    ensures Repadded(Encode(bytes)) == Btoa(Binary(bytes))
  {
    var v := Sextets(bytes);
    assert FromUrl(Encode(bytes)) == Chars(v) && |Encode(bytes)| == |v| by { TextOfEncode(bytes); }
    assert Padding(|v|) == Missing(|bytes|) by {
      SextetsLength(bytes);
      RepaddingLength(|bytes|, |v|);
    }
    assert Btoa(Binary(bytes)) == Chars(v) + Equals(Missing(|bytes|)) by { BtoaOfBinary(bytes); }
  }

  lemma RoundTrip(bytes: seq<Byte>)
    ensures Decode(Encode(bytes)) == Some(bytes)
  {
    RepaddedIsBtoa(bytes);
    AtobOfBtoa(bytes);
    CodesOfBinary(bytes);
  }

  /******* What the encoding is *******/

  /** The n low bits of x, highest first. */
  function Bits(x: int, n: nat): (r: seq<int>)
    ensures |r| == n
    decreases n
  {
    if n == 0 then [] else Bits(x / 2, n - 1) + [x % 2]
  }

  /** The bits of a sequence of values of n bits. */
  function Stream(xs: seq<int>, n: nat): seq<int>
  {
    if xs == [] then [] else Bits(xs[0], n) + Stream(xs[1..], n)
  }

  function Zeros(n: nat): seq<int> { seq(n, _ => 0) }

  lemma {:induction false} BitsOfZero(n: nat)
    ensures Bits(0, n) == Zeros(n)
  {
    if n > 0 { BitsOfZero(n - 1); }
  }

  lemma Halves(z: nat, x: nat, p: nat, y: nat)
    requires z == x * (2 * p) + y
    ensures z / 2 == x * p + y / 2 && z % 2 == y % 2
  {
    var q := x * p;
    assert x * (2 * p) == 2 * q;
  }

  lemma {:induction false} BitsSplit(z: nat, x: nat, y: nat, n: nat, m: nat)
    requires y < Pow2(m) && z == x * Pow2(m) + y
    ensures Bits(z, n + m) == Bits(x, n) + Bits(y, m)
    decreases m
  {
    if m > 0 {
      Halves(z, x, Pow2(m - 1), y);
      BitsSplit(z / 2, x, y / 2, n, m - 1);
    }
  }

  lemma Powers()
    ensures Pow2(2) == 4 && Pow2(4) == 16 && Pow2(6) == 64
  {
    assert Pow2(3) == 8;
    assert Pow2(5) == 32;
  }

  /** The widths are parameters, so that they are not unfolded bit by bit. */
  predicate Widths(w2: nat, w4: nat, w6: nat, w8: nat) { w2 == 2 && w4 == 4 && w6 == 6 && w8 == 8 }

  lemma Cut(z: nat, x: nat, y: nat, d: nat, n: nat, m: nat, w: nat)
    requires w == n + m && d == Pow2(m) && y < d && z == x * d + y
    ensures Bits(z, w) == Bits(x, n) + Bits(y, m)
  {
    BitsSplit(z, x, y, n, m);
  }

  /** Three bytes as four values, by the parts of a byte that two values share. */
  lemma QuadBits(a: Byte, b: Byte, c: Byte, w2: nat, w4: nat, w6: nat)
    requires w2 == 2 && w4 == 4 && w6 == 6
    ensures var q := Quad(a, b, c);
      && q[0] == a / 4
      && Bits(q[1], w6) == Bits(a % 4, w2) + Bits(b / 16, w4)
      && Bits(q[2], w6) == Bits(b % 16, w4) + Bits(c / 64, w2)
      && q[3] == c % 64
  {
    Powers();
    Cut(a % 4 * 16 + b / 16, a % 4, b / 16, 16, w2, w4, w6);
    Cut(b % 16 * 4 + c / 64, b % 16, c / 64, 4, w4, w2, w6);
  }

  lemma ByteBits(x: Byte, w2: nat, w4: nat, w6: nat, w8: nat)
    requires Widths(w2, w4, w6, w8)
    ensures Bits(x, w8) == Bits(x / 4, w6) + Bits(x % 4, w2)
    ensures Bits(x, w8) == Bits(x / 16, w4) + Bits(x % 16, w4)
    ensures Bits(x, w8) == Bits(x / 64, w2) + Bits(x % 64, w6)
  {
    Powers();
    Cut(x, x / 4, x % 4, 4, w6, w2, w8);
    Cut(x, x / 16, x % 16, 16, w4, w4, w8);
    Cut(x, x / 64, x % 64, 64, w2, w6, w8);
  }

  lemma {:induction false} StreamAppend(xs: seq<int>, ys: seq<int>, n: nat)
    ensures Stream(xs + ys, n) == Stream(xs, n) + Stream(ys, n)
  {
    if xs == [] {
      assert xs + ys == ys;
    } else {
      assert (xs + ys)[1..] == xs[1..] + ys;
      StreamAppend(xs[1..], ys, n);
    }
  }

  lemma StreamOne(x: int, n: nat)
    ensures Stream([x], n) == Bits(x, n)
  {
    assert [x][1..] == [];
  }

  lemma StreamTwo(x: int, y: int, n: nat)
    ensures Stream([x, y], n) == Bits(x, n) + Bits(y, n)
  {
    assert [x, y] == [x] + [y];
    StreamAppend([x], [y], n);
    StreamOne(x, n);
    StreamOne(y, n);
  }

  lemma StreamThree(x: int, y: int, z: int, n: nat)
    ensures Stream([x, y, z], n) == Bits(x, n) + Bits(y, n) + Bits(z, n)
  {
    assert [x, y, z] == [x, y] + [z];
    StreamAppend([x, y], [z], n);
    StreamTwo(x, y, n);
    StreamOne(z, n);
  }

  lemma OneByteStream(a: Byte, w2: nat, w4: nat, w6: nat, w8: nat)
    requires Widths(w2, w4, w6, w8)
    ensures Stream(Quad(a, 0, 0)[..2], w6) == Stream([a], w8) + Zeros(4)
  {
    var q := Quad(a, 0, 0);
    StreamOne(a, w8);
    StreamTwo(q[0], q[1], w6);
    assert q[..2] == [q[0], q[1]];
    QuadBits(a, 0, 0, w2, w4, w6);
    ByteBits(a, w2, w4, w6, w8);
    BitsOfZero(w4);
  }

  lemma RegroupTwo(p: seq<int>, a2: seq<int>, b4: seq<int>, c4: seq<int>, z: seq<int>)
    ensures p + (a2 + b4) + (c4 + z) == (p + a2) + (b4 + c4) + z
  {
  }

  lemma TwoByteStream(a: Byte, b: Byte, w2: nat, w4: nat, w6: nat, w8: nat)
    requires Widths(w2, w4, w6, w8)
    ensures Stream(Quad(a, b, 0)[..3], w6) == Stream([a, b], w8) + Zeros(2)
  {
    var q := Quad(a, b, 0);
    StreamTwo(a, b, w8);
    StreamThree(q[0], q[1], q[2], w6);
    assert q[..3] == [q[0], q[1], q[2]];
    QuadBits(a, b, 0, w2, w4, w6);
    ByteBits(a, w2, w4, w6, w8);
    ByteBits(b, w2, w4, w6, w8);
    BitsOfZero(w2);
    RegroupTwo(Bits(a / 4, w6), Bits(a % 4, w2), Bits(b / 16, w4), Bits(b % 16, w4), Zeros(2));
  }

  lemma RegroupThree(p: seq<int>, a2: seq<int>, b4: seq<int>, c4: seq<int>, d2: seq<int>, q: seq<int>)
    ensures (p + (a2 + b4)) + ((c4 + d2) + q) == (p + a2) + (b4 + c4) + (d2 + q)
  {
  }

  lemma ThreeByteStream(a: Byte, b: Byte, c: Byte, w2: nat, w4: nat, w6: nat, w8: nat)
    requires Widths(w2, w4, w6, w8)
    ensures Stream(Quad(a, b, c), w6) == Stream([a, b, c], w8)
  {
    var q := Quad(a, b, c);
    StreamThree(a, b, c, w8);
    StreamTwo(q[0], q[1], w6);
    StreamTwo(q[2], q[3], w6);
    StreamAppend([q[0], q[1]], [q[2], q[3]], w6);
    assert q == [q[0], q[1]] + [q[2], q[3]];
    QuadBits(a, b, c, w2, w4, w6);
    ByteBits(a, w2, w4, w6, w8);
    ByteBits(b, w2, w4, w6, w8);
    ByteBits(c, w2, w4, w6, w8);
    RegroupThree(Bits(a / 4, w6), Bits(a % 4, w2), Bits(b / 16, w4), Bits(b % 16, w4), Bits(c / 64, w2),
      Bits(c % 64, w6));
  }

  lemma Assoc(a: seq<int>, b: seq<int>, c: seq<int>)
    ensures a + (b + c) == (a + b) + c
  {
  }

  lemma StreamStep(q: seq<int>, values: seq<int>, b: seq<int>, bytes: seq<int>, zeros: seq<int>, w6: nat, w8: nat)
    requires Stream(q, w6) == Stream(b, w8) && Stream(values, w6) == Stream(bytes, w8) + zeros
    ensures Stream(q + values, w6) == Stream(b + bytes, w8) + zeros
  {
    StreamAppend(q, values, w6);
    StreamAppend(b, bytes, w8);
    Assoc(Stream(b, w8), Stream(bytes, w8), zeros);
  }

  lemma ShortSextets(bytes: seq<Byte>)
    requires |bytes| < 3
    ensures bytes == [] ==> Sextets(bytes) == []
    ensures |bytes| == 1 ==> bytes == [bytes[0]] && Sextets(bytes) == Quad(bytes[0], 0, 0)[..2]
    ensures |bytes| == 2 ==> bytes == [bytes[0], bytes[1]] && Sextets(bytes) == Quad(bytes[0], bytes[1], 0)[..3]
  {
  }

  lemma MissingFew()
    ensures 2 * Missing(0) == 0 && 2 * Missing(1) == 4 && 2 * Missing(2) == 2
  {
  }

  lemma ShortStream(bytes: seq<Byte>, w2: nat, w4: nat, w6: nat, w8: nat)
    requires Widths(w2, w4, w6, w8) && |bytes| < 3
    ensures Stream(Sextets(bytes), w6) == Stream(bytes, w8) + Zeros(2 * Missing(|bytes|))
  {
    MissingFew();
    ShortSextets(bytes);
    if bytes == [] {
      assert Zeros(0) == [];
    } else if |bytes| == 1 {
      assert Zeros(2 * Missing(|bytes|)) == Zeros(4);
      OneByteStream(bytes[0], w2, w4, w6, w8);
    } else {
      assert Zeros(2 * Missing(|bytes|)) == Zeros(2);
      TwoByteStream(bytes[0], bytes[1], w2, w4, w6, w8);
    }
  }

  lemma SextetsStep(b: seq<Byte>, rest: seq<Byte>)
    requires |b| == 3
    ensures Sextets(b + rest) == Quad(b[0], b[1], b[2]) + Sextets(rest)
    ensures Missing(|b + rest|) == Missing(|rest|)
  {
    assert (b + rest)[3..] == rest;
  }

  lemma {:induction false} SextetsStream(bytes: seq<Byte>, w2: nat, w4: nat, w6: nat, w8: nat)
    requires Widths(w2, w4, w6, w8)
    ensures Stream(Sextets(bytes), w6) == Stream(bytes, w8) + Zeros(2 * Missing(|bytes|))
  {
    if |bytes| < 3 {
      ShortStream(bytes, w2, w4, w6, w8);
    } else {
      var b, rest := [bytes[0], bytes[1], bytes[2]], bytes[3..];
      assert bytes == b + rest;
      SextetsStream(rest, w2, w4, w6, w8);
      SextetsStep(b, rest);
      ThreeByteStream(b[0], b[1], b[2], w2, w4, w6, w8);
      StreamStep(Quad(b[0], b[1], b[2]), Sextets(rest), b, rest, Zeros(2 * Missing(|rest|)), w6, w8);
    }
  }

  predicate AllUrl(s: string) { forall i | 0 <= i < |s| :: InUrlAlphabet(s[i]) }

  lemma UrlIsStandard(s: string)
    requires AllUrl(s)
    ensures AllStandard(FromUrl(s))
  {
  }

  lemma ToUrlOfChars(v: seq<Sextet>)
    ensures AllUrl(ToUrl(Chars(v)))
  {
  }

  /** The values of a text in the alphabet of section 5. */
  function UrlValues(s: string): (v: seq<Sextet>)
    requires AllUrl(s)
    ensures |v| == |s|
  {
    UrlIsStandard(s);
    Values(FromUrl(s))
  }

  lemma ValuesOfEncode(bytes: seq<Byte>)
    ensures AllUrl(Encode(bytes)) && UrlValues(Encode(bytes)) == Sextets(bytes)
  {
    EncodeIsSextets(bytes);
    ToUrlOfChars(Sextets(bytes));
    TextOfEncode(bytes);
    CharsAndValues(Sextets(bytes));
  }

  lemma {:induction false} StreamLength(xs: seq<int>, n: nat)
    ensures |Stream(xs, n)| == |xs| * n
  {
    if xs != [] {
      StreamLength(xs[1..], n);
      assert |xs| * n == (|xs| - 1) * n + n;
    }
  }

  lemma EncodeLength(bytes: seq<Byte>, w6: nat, w8: nat)
    requires w6 == 6 && w8 == 8
    ensures |Encode(bytes)| * w6 == |bytes| * w8 + 2 * Missing(|bytes|)
  {
    var v := Sextets(bytes);
    TextOfEncode(bytes);
    SextetsStream(bytes, 2, 4, w6, w8);
    StreamLength(v, w6);
    StreamLength(bytes, w8);
  }

  lemma EncodeStream(bytes: seq<Byte>, w6: nat, w8: nat)
    requires w6 == 6 && w8 == 8
    ensures AllUrl(Encode(bytes))
    ensures Stream(UrlValues(Encode(bytes)), w6) == Stream(bytes, w8) + Zeros(2 * Missing(|bytes|))
  {
    ValuesOfEncode(bytes);
    SextetsStream(bytes, 2, 4, w6, w8);
  }

  /** Bits of the last character that no byte fills. */
  function SpareBits(n: nat): (k: nat)
    ensures k < 6
  {
    2 * Missing(n)
  }

  /** Section 5 of RFC 4648: only characters of its alphabet, no padding, and the characters, read as groups of six
      bits, are the bits of the input followed by fewer than six zero bits. */
  lemma EncodesBits(bytes: seq<Byte>)
    ensures AllUrl(Encode(bytes)) && |Encode(bytes)| * 6 == |bytes| * 8 + SpareBits(|bytes|)
    ensures Stream(UrlValues(Encode(bytes)), 6) == Stream(bytes, 8) + Zeros(SpareBits(|bytes|))
  {
    EncodeLength(bytes, 6, 8);
    EncodeStream(bytes, 6, 8);
  }

  /******* What the decoder accepts *******/

  lemma {:induction false} NoSpaceOfRepadded(s: string, n: nat)
    ensures NoSpace(FromUrl(s) + Equals(n)) == FromUrl(NoSpace(s)) + Equals(n)
  {
    if s == "" {
      NothingToSkip(Equals(n));
      assert FromUrl(s) + Equals(n) == Equals(n) == FromUrl(NoSpace(s)) + Equals(n);
    } else {
      NoSpaceOfRepadded(s[1..], n);
      var t := FromUrl(s) + Equals(n);
      assert t[1..] == FromUrl(s[1..]) + Equals(n);
    }
  }

  /** The text without white space and final '='. */
  function Payload(value: string): string { Trimmed(NoSpace(value)) }

  /** The '=' of the text and those that `fromBase64Url` adds after counting white space too. */
  function PaddingOf(value: string): nat { |NoSpace(value)| - |Payload(value)| + Padding(|value|) }

  /** Both alphabets are accepted, together with white space and padding as long as the padding, with what is added to
      it, is none at all or exactly what section 4 asks for. */
  predicate Decodable(value: string) { Accepted(FromUrl(Payload(value)), PaddingOf(value)) }

  lemma RepaddedText(value: string)
    ensures NoSpace(Repadded(value)) == FromUrl(Payload(value)) + Equals(PaddingOf(value))
  {
    NoSpaceOfRepadded(value, Padding(|value|));
  }

  lemma NoFinalEquals(value: string)
    ensures var u := FromUrl(Payload(value)); u == "" || u[|u| - 1] != '='
  {
  }

  lemma DecodesExactly(value: string)
    ensures Decode(value).Some? <==> Decodable(value)
    ensures Decode(value).Some? ==> Decode(value).value == Bytes(Values(FromUrl(Payload(value))))
  {
    var u := FromUrl(Payload(value));
    RepaddedText(value);
    NoFinalEquals(value);
    AtobOfPadded(u, PaddingOf(value), Repadded(value));
    if Atob(Repadded(value)).Some? {
      CodesOfBinary(Bytes(Values(u)));
    }
  }

  /** The unused low bits of the last value are zero. */
  predicate ZeroUnused(v: seq<Sextet>)
  {
    && (|v| % 4 == 2 ==> v[|v| - 1] % 16 == 0)
    && (|v| % 4 == 3 ==> v[|v| - 1] % 4 == 0)
  }

  /** What `toBase64Url` can produce: the alphabet of section 5, no lone last character, unused bits zero. */
  predicate Canonical(value: string)
  {
    AllUrl(value) && |value| % 4 != 1 && ZeroUnused(UrlValues(value))
  }

  lemma QuadOfTriple(p: Sextet, q: Sextet, r: Sextet, t: Sextet)
    ensures var b := Triple(p, q, r, t); Quad(b[0], b[1], b[2]) == [p, q, r, t]
    ensures t == 0 && r % 4 == 0 ==> Triple(p, q, r, t)[2] == 0
    ensures t == 0 && r == 0 && q % 16 == 0 ==> Triple(p, q, r, t)[1] == 0
  {
    var b := Triple(p, q, r, t);
    Parts(p, q / 16);
    Parts(q % 16, r / 4);
    Parts(r % 4, t);
    assert b[0] / 4 == p && b[0] % 4 == q / 16;
    assert b[1] / 16 == q % 16 && b[1] % 16 == r / 4;
    assert b[2] / 64 == r % 4 && b[2] % 64 == t;
  }

  lemma TwoValues(p: Sextet, q: Sextet)
    requires q % 16 == 0
    ensures Sextets(Bytes([p, q])) == [p, q]
  {
    var b := Triple(p, q, 0, 0);
    QuadOfTriple(p, q, 0, 0);
    assert Bytes([p, q]) == [b[0]];
    ShortSextets([b[0]]);
    assert [p, q, 0, 0][..2] == [p, q];
  }

  lemma ThreeValues(p: Sextet, q: Sextet, r: Sextet)
    requires r % 4 == 0
    ensures Sextets(Bytes([p, q, r])) == [p, q, r]
  {
    var b := Triple(p, q, r, 0);
    QuadOfTriple(p, q, r, 0);
    assert Bytes([p, q, r]) == [b[0], b[1]];
    ShortSextets([b[0], b[1]]);
    assert [p, q, r, 0][..3] == [p, q, r];
  }

  lemma TwoUnused(v: seq<Sextet>)
    requires |v| == 2
    ensures ZeroUnused(v) <==> v[1] % 16 == 0
  {
  }

  lemma ThreeUnused(v: seq<Sextet>)
    requires |v| == 3
    ensures ZeroUnused(v) <==> v[2] % 4 == 0
  {
  }

  lemma {:induction false} SextetsOfBytes(v: seq<Sextet>)
    requires |v| % 4 != 1 && ZeroUnused(v)
    ensures Sextets(Bytes(v)) == v
  {
    if |v| == 0 {
    } else if |v| == 2 {
      TwoUnused(v);
      TwoValues(v[0], v[1]);
      assert v == [v[0], v[1]];
    } else if |v| == 3 {
      ThreeUnused(v);
      ThreeValues(v[0], v[1], v[2]);
      assert v == [v[0], v[1], v[2]];
    } else {
      var q, rest := [v[0], v[1], v[2], v[3]], v[4..];
      assert v == q + rest;
      SextetsOfBytes(rest);
      BytesStep(q, rest);
      SextetsStep(Triple(q[0], q[1], q[2], q[3]), Bytes(rest));
      QuadOfTriple(q[0], q[1], q[2], q[3]);
    }
  }

  lemma QuadUnused(a: Byte, b: Byte)
    ensures Quad(a, 0, 0)[1] % 16 == 0 && Quad(a, b, 0)[2] % 4 == 0
  {
  }

  lemma ShortUnused(bytes: seq<Byte>)
    requires |bytes| < 3
    ensures ZeroUnused(Sextets(bytes))
  {
    ShortSextets(bytes);
    if |bytes| == 1 {
      QuadUnused(bytes[0], 0);
      TwoUnused(Sextets(bytes));
    } else if |bytes| == 2 {
      QuadUnused(bytes[0], bytes[1]);
      ThreeUnused(Sextets(bytes));
    }
  }

  lemma UnusedStep(q: seq<Sextet>, rest: seq<Sextet>)
    requires |q| == 4 && ZeroUnused(rest)
    ensures ZeroUnused(q + rest)
  {
    assert |rest| > 0 ==> (q + rest)[|rest| + 3] == rest[|rest| - 1];
  }

  lemma {:induction false} UnusedBitsOfSextets(bytes: seq<Byte>)
    ensures ZeroUnused(Sextets(bytes))
  {
    if |bytes| < 3 {
      ShortUnused(bytes);
    } else {
      UnusedBitsOfSextets(bytes[3..]);
      UnusedStep(Quad(bytes[0], bytes[1], bytes[2]), Sextets(bytes[3..]));
    }
  }

  lemma EncodeIsCanonical(bytes: seq<Byte>)
    ensures Canonical(Encode(bytes))
  {
    ValuesOfEncode(bytes);
    SextetsLength(bytes);
    UnusedBitsOfSextets(bytes);
  }

  lemma UrlPayload(value: string)
    requires AllUrl(value)
    ensures Payload(value) == value
  {
    NothingToSkip(value);
    TrimmedAt(value, value);
  }

  lemma ToUrlOfFromUrl(value: string)
    requires AllUrl(value)
    ensures ToUrl(FromUrl(value)) == value
  {
  }

  lemma CharsOfValues(s: string)
    requires AllStandard(s)
    ensures Chars(Values(s)) == s
  {
  }

  lemma PaddingFits(u: nat)
    requires u % 4 != 1
    ensures Padding(u) <= 2 && (u + Padding(u)) % 4 == 0
  {
  }

  lemma PaddingOfUrl(value: string)
    requires AllUrl(value)
    ensures PaddingOf(value) == Padding(|value|)
  {
    UrlPayload(value);
    NothingToSkip(value);
  }

  lemma FittingIsAccepted(u: string)
    requires AllStandard(u) && |u| % 4 != 1
    ensures Accepted(u, Padding(|u|))
  {
    PaddingFits(|u|);
  }

  lemma CanonicalIsDecodable(value: string)
    requires AllUrl(value) && |value| % 4 != 1
    ensures Decodable(value)
  {
    assert Payload(value) == value by { UrlPayload(value); }
    assert PaddingOf(value) == Padding(|FromUrl(value)|) by { PaddingOfUrl(value); }
    assert AllStandard(FromUrl(value)) by { UrlIsStandard(value); }
    FittingIsAccepted(FromUrl(value));
  }

  lemma CanonicalDecodes(value: string)
    requires Canonical(value)
    ensures Decode(value) == Some(Bytes(UrlValues(value)))
  {
    CanonicalIsDecodable(value);
    UrlPayload(value);
    DecodesExactly(value);
  }

  lemma CanonicalRoundTrip(value: string)
    requires Canonical(value)
    ensures Encode(Bytes(UrlValues(value))) == value
  {
    UrlIsStandard(value);
    var v := UrlValues(value);
    SextetsOfBytes(v);
    EncodeIsSextets(Bytes(v));
    CharsOfValues(FromUrl(value));
    ToUrlOfFromUrl(value);
  }

  /** The encodings are exactly the canonical texts: each of them is decoded, and encoding the bytes gives it back. */
  lemma CanonicalTexts(value: string)
    ensures Canonical(value) <==> Decode(value).Some? && Encode(Decode(value).value) == value
  {
    if Canonical(value) {
      CanonicalDecodes(value);
      CanonicalRoundTrip(value);
    }
    if Decode(value).Some? {
      EncodeIsCanonical(Decode(value).value);
    }
  }
}
