/** Unpadded base64url, as the source builds it from padded base64. */
module Base64Url {
  import opened Prelude

  type Byte = b: int | 0 <= b < 256

  type Sextet = n: int | 0 <= n < 64

  function SextetChar(n: Sextet): (c: char)
    ensures IsStandard(c)
  {
    if n < 26 then ('A' as int + n) as char
    else if n < 52 then ('a' as int + n - 26) as char
    else if n < 62 then ('0' as int + n - 52) as char
    else if n == 62 then '+' else '/'
  }

  predicate IsStandard(c: char) {
    'A' <= c <= 'Z' || 'a' <= c <= 'z' || '0' <= c <= '9' || c == '+' || c == '/'
  }

  function CharSextet(c: char): Sextet
    requires IsStandard(c)
  {
    if 'A' <= c <= 'Z' then c as int - 'A' as int
    else if 'a' <= c <= 'z' then c as int - 'a' as int + 26
    else if '0' <= c <= '9' then c as int - '0' as int + 52
    else if c == '+' then 62 else 63
  }

  /** The four characters for three bytes. */
  function Quad(a: Byte, b: Byte, c: Byte): (s: string)
    ensures |s| == 4 && forall i :: 0 <= i < 4 ==> IsStandard(s[i])
  {
    [SextetChar(a / 4), SextetChar(a % 4 * 16 + b / 16), SextetChar(b % 16 * 4 + c / 64), SextetChar(c % 64)]
  }

  /** The characters for one to three bytes, without padding. */
  function Group(b: seq<Byte>): string
    requires 1 <= |b| <= 3
  {
    Quad(b[0], if |b| > 1 then b[1] else 0, if |b| > 2 then b[2] else 0)[..|b| + 1]
  }

  /** `toString("base64")`: section 4 of RFC 4648, with padding. */
  function ToBase64(b: seq<Byte>): string {
    if b == [] then ""
    else if |b| <= 3 then Group(b) + Repeat('=', 3 - |b|)
    else Group(b[..3]) + ToBase64(b[3..])
  }

  function Repeat(c: char, n: nat): (s: string)
    ensures |s| == n && forall i :: 0 <= i < n ==> s[i] == c
  {
    if n == 0 then "" else Repeat(c, n - 1) + [c]
  }

  function Bytes(c0: char, c1: char, c2: char, c3: char): (b: seq<Byte>)
    requires IsStandard(c0) && IsStandard(c1) && IsStandard(c2) && IsStandard(c3)
  {
    var n0, n1, n2, n3 := CharSextet(c0), CharSextet(c1), CharSextet(c2), CharSextet(c3);
    [n0 * 4 + n1 / 16, n1 % 16 * 16 + n2 / 4, n2 % 4 * 64 + n3]
  }

  /** `Buffer.from(s, "base64")` on padded base64; None for anything else. */
  function FromBase64(s: string): Option<seq<Byte>> {
    if s == "" then Some([])
    else if |s| < 4 || !IsStandard(s[0]) || !IsStandard(s[1]) then None
    else if |s| == 4 && s[2] == '=' && s[3] == '=' then Some(Bytes(s[0], s[1], 'A', 'A')[..1])
    else if !IsStandard(s[2]) then None
    else if |s| == 4 && s[3] == '=' then Some(Bytes(s[0], s[1], s[2], 'A')[..2])
    else if !IsStandard(s[3]) then None
    else
      var rest := FromBase64(s[4..]);
      if rest.None? then None else Some(Bytes(s[0], s[1], s[2], s[3]) + rest.value)
  }

  function Replace(s: string, from: char, to: char): (r: string)
    ensures |r| == |s| && forall i :: 0 <= i < |s| ==> r[i] == if s[i] == from then to else s[i]
  {
    seq(|s|, i requires 0 <= i < |s| => if s[i] == from then to else s[i])
  }

  /** Remove the run of `=` at the end. */
  function StripPadding(s: string): string {
    if s != "" && s[|s| - 1] == '=' then StripPadding(s[..|s| - 1]) else s
  }

  function Encode(b: seq<Byte>): string {
    StripPadding(Replace(Replace(ToBase64(b), '+', '-'), '/', '_'))
  }

  function Normalized(s: string): string {
    Replace(Replace(s, '-', '+'), '_', '/')
  }

  function Padded(s: string): string {
    s + Repeat('=', (4 - |s| % 4) % 4)
  }

  function Decode(s: string): Option<seq<Byte>> {
    FromBase64(Padded(Normalized(s)))
  }

  // ---- round trip --------------------------------------------------------

  lemma SextetRoundTrip(n: Sextet)
    ensures CharSextet(SextetChar(n)) == n
  {
  }

  lemma {:induction false} FromToBase64(b: seq<Byte>)
    ensures FromBase64(ToBase64(b)) == Some(b)
  {
    var s := ToBase64(b);
    if |b| > 3 {
      var g := b[..3];
      GroupChars(g);
      ThreeBytes(g);
      FromToBase64(b[3..]);
      assert s[..4] == Group(g) && s[4..] == ToBase64(b[3..]);
      assert s[0] == Group(g)[0] && s[1] == Group(g)[1] && s[2] == Group(g)[2] && s[3] == Group(g)[3];
      assert b == b[..3] + b[3..];
    } else if b != [] {
      GroupChars(b);
      if |b| == 1 { OneByte(b); } else if |b| == 2 { TwoBytes(b); } else { ThreeBytes(b); }
      LastGroup(Group(b), b);
    }
  }

  lemma LastGroup(g: string, b: seq<Byte>)
    requires 1 <= |b| <= 3 && |g| == |b| + 1 && forall i :: 0 <= i < |g| ==> IsStandard(g[i])
    requires |b| == 1 ==> Bytes(g[0], g[1], 'A', 'A')[..1] == b
    requires |b| == 2 ==> Bytes(g[0], g[1], g[2], 'A')[..2] == b
    requires |b| == 3 ==> Bytes(g[0], g[1], g[2], g[3]) == b
    ensures FromBase64(g + Repeat('=', 3 - |b|)) == Some(b)
  {
    var s := g + Repeat('=', 3 - |b|);
    if |b| == 3 {
      assert s == g && s[4..] == "";
      assert FromBase64(s[4..]) == Some([]);
      assert Bytes(s[0], s[1], s[2], s[3]) + [] == b;
    } else if |b| == 2 {
      assert s == g + ['='];
    } else {
      assert s == g + ['=', '='];
    }
  }

  lemma Regroup(a: Byte, b: Byte, c: Byte)
    ensures var n := a % 4 * 16 + b / 16; n < 64 && n / 16 == a % 4 && n % 16 == b / 16
    ensures var n := b % 16 * 4 + c / 64; n < 64 && n / 4 == b % 16 && n % 4 == c / 64
    ensures a / 4 * 4 + a % 4 == a && b / 16 * 16 + b % 16 == b && c / 64 * 64 + c % 64 == c
  {
  }

  lemma BytesOfQuad(a: Byte, b: Byte, c: Byte)
    ensures var q := Quad(a, b, c);
            && Bytes(q[0], q[1], q[2], q[3]) == [a, b, c]
            && (c == 0 ==> q[3] == 'A') && (b == 0 && c == 0 ==> q[2] == 'A')
  {
    Regroup(a, b, c);
    SextetRoundTrip(a / 4);
    SextetRoundTrip(a % 4 * 16 + b / 16);
    SextetRoundTrip(b % 16 * 4 + c / 64);
    SextetRoundTrip(c % 64);
  }

  lemma GroupChars(b: seq<Byte>)
    requires 1 <= |b| <= 3
    ensures |Group(b)| == |b| + 1 && forall i :: 0 <= i < |Group(b)| ==> IsStandard(Group(b)[i])
  {
  }

  lemma OneByte(b: seq<Byte>)
    requires |b| == 1
    ensures |Group(b)| == 2 && Bytes(Group(b)[0], Group(b)[1], 'A', 'A')[..1] == b
  {
    BytesOfQuad(b[0], 0, 0);
    var q := Quad(b[0], 0, 0);
    assert Group(b)[0] == q[0] && Group(b)[1] == q[1];
  }

  lemma TwoBytes(b: seq<Byte>)
    requires |b| == 2
    ensures |Group(b)| == 3 && Bytes(Group(b)[0], Group(b)[1], Group(b)[2], 'A')[..2] == b
  {
    BytesOfQuad(b[0], b[1], 0);
    var q := Quad(b[0], b[1], 0);
    assert Group(b)[0] == q[0] && Group(b)[1] == q[1] && Group(b)[2] == q[2];
  }

  lemma ThreeBytes(b: seq<Byte>)
    requires |b| == 3
    ensures |Group(b)| == 4 && Bytes(Group(b)[0], Group(b)[1], Group(b)[2], Group(b)[3]) == b
  {
    BytesOfQuad(b[0], b[1], b[2]);
    assert Group(b) == Quad(b[0], b[1], b[2]);
  }

  /** Base64 without its padding. */
  function Bare(b: seq<Byte>): string {
    if b == [] then "" else if |b| <= 3 then Group(b) else Group(b[..3]) + Bare(b[3..])
  }

  function Padding(n: nat): nat {
    (3 - n % 3) % 3
  }

  function EncodedLength(n: nat): nat {
    (4 * n + 2) / 3
  }

  lemma LengthStep(n: nat)
    requires n >= 3
    ensures EncodedLength(n) == 4 + EncodedLength(n - 3) && Padding(n) == Padding(n - 3)
  {
  }

  /** The padding the decoder adds back is the padding the encoder removed. */
  lemma PaddingFromLength(n: nat)
    ensures (4 - EncodedLength(n) % 4) % 4 == Padding(n)
  {
    var q, r := n / 3, n % 3;
    assert n == 3 * q + r;
    LengthOf(q, r);
    PaddingOf(4 * q + (if r == 0 then 0 else r + 1), q, r);
  }

  lemma LengthOf(q: nat, r: nat)
    requires r < 3
    ensures EncodedLength(3 * q + r) == 4 * q + (if r == 0 then 0 else r + 1)
    ensures Padding(3 * q + r) == if r == 0 then 0 else 3 - r
  {
    assert (3 * q + r) % 3 == r;
  }

  lemma PaddingOf(length: nat, q: nat, r: nat)
    requires r < 3 && length == 4 * q + (if r == 0 then 0 else r + 1)
    ensures (4 - length % 4) % 4 == if r == 0 then 0 else 3 - r
  {
    assert length % 4 == if r == 0 then 0 else r + 1;
  }

  lemma {:induction false} BareLength(b: seq<Byte>)
    ensures |Bare(b)| == EncodedLength(|b|)
    ensures forall i :: 0 <= i < |Bare(b)| ==> IsStandard(Bare(b)[i])
  {
    if b != [] {
      GroupChars(if |b| <= 3 then b else b[..3]);
      if |b| > 3 {
        BareLength(b[3..]);
        LengthStep(|b|);
      }
    }
  }

  lemma {:induction false} BareAndPadding(b: seq<Byte>)
    ensures ToBase64(b) == Bare(b) + Repeat('=', Padding(|b|))
  {
    if |b| > 3 {
      BareAndPadding(b[3..]);
      LengthStep(|b|);
    }
  }

  lemma {:induction false} StripRepeat(s: string, n: nat)
    requires forall i :: 0 <= i < |s| ==> s[i] != '='
    ensures StripPadding(s + Repeat('=', n)) == s
  {
    var t := s + Repeat('=', n);
    if n > 0 {
      StripRepeat(s, n - 1);
      assert t == (s + Repeat('=', n - 1)) + ['='];
      assert t[..|t| - 1] == s + Repeat('=', n - 1);
    } else {
      assert t == s;
    }
  }

  predicate IsUrlSafe(c: char) {
    'A' <= c <= 'Z' || 'a' <= c <= 'z' || '0' <= c <= '9' || c == '-' || c == '_'
  }

  /** The standard alphabet with its last two characters exchanged for URL-safe ones. */
  function Safe(s: string): string {
    Replace(Replace(s, '+', '-'), '/', '_')
  }

  lemma SafeIsReversible(s: string)
    requires forall i :: 0 <= i < |s| ==> IsStandard(s[i])
    ensures Normalized(Safe(s)) == s
    ensures forall i :: 0 <= i < |s| ==> IsUrlSafe(Safe(s)[i])
  {
    var back := Normalized(Safe(s));
    forall i | 0 <= i < |s| ensures back[i] == s[i] && IsUrlSafe(Safe(s)[i]) {
      assert Safe(s)[i] == if s[i] == '+' then '-' else if s[i] == '/' then '_' else s[i];
    }
  }

  lemma SafeOfPadded(s: string, n: nat)
    ensures Safe(s + Repeat('=', n)) == Safe(s) + Repeat('=', n)
  {
  }

  /** The encoding is unpadded, of the length its input gives, and uses only the URL-safe alphabet of
      section 5 of RFC 4648. */
  lemma EncodeIs(b: seq<Byte>)
    ensures Encode(b) == Safe(Bare(b)) && |Encode(b)| == EncodedLength(|b|)
    ensures forall i :: 0 <= i < |Encode(b)| ==> IsUrlSafe(Encode(b)[i])
  {
    BareAndPadding(b);
    BareLength(b);
    SafeIsReversible(Bare(b));
    SafeOfPadded(Bare(b), Padding(|b|));
    StripRepeat(Safe(Bare(b)), Padding(|b|));
  }

  /** Decoding undoes encoding, for every byte sequence. */
  lemma DecodeEncode(b: seq<Byte>)
    ensures Decode(Encode(b)) == Some(b)
  {
    EncodeIs(b);
    BareAndPadding(b);
    BareLength(b);
    PaddingFromLength(|b|);
    SafeIsReversible(Bare(b));
    assert Padded(Bare(b)) == ToBase64(b);
    FromToBase64(b);
  }

  /** The alphabet: letters, small letters and digits in their order, then two signs. */
  lemma AlphabetRuns(n: Sextet)
    ensures SextetChar(0) == 'A' && SextetChar(26) == 'a' && SextetChar(52) == '0'
    ensures SextetChar(62) == '+' && SextetChar(63) == '/'
    ensures n !in {25, 51, 61, 62, 63} ==> SextetChar(n + 1) as int == SextetChar(n) as int + 1
  {
  }

  /** Four characters stand for the twenty-four bits of three bytes, highest first. */
  lemma QuadHasTheBits(a: Byte, b: Byte, c: Byte)
    ensures var s := Quad(a, b, c);
            262144 * CharSextet(s[0]) + 4096 * CharSextet(s[1]) + 64 * CharSextet(s[2]) + CharSextet(s[3])
            == 65536 * a + 256 * b + c
  {
    SextetRoundTrip(a / 4);
    SextetRoundTrip(a % 4 * 16 + b / 16);
    SextetRoundTrip(b % 16 * 4 + c / 64);
    SextetRoundTrip(c % 64);
    BitsOf(a, b, c);
  }

  lemma BitsOf(a: int, b: int, c: int)
    requires 0 <= a && 0 <= b && 0 <= c
    ensures 262144 * (a / 4) + 4096 * (a % 4 * 16 + b / 16) + 64 * (b % 16 * 4 + c / 64) + c % 64 == 65536 * a + 256 * b + c
  {
    assert a == 4 * (a / 4) + a % 4 && b == 16 * (b / 16) + b % 16 && c == 64 * (c / 64) + c % 64;
  }
}
