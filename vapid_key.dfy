/** The browser-side decoder of the server's VAPID public key: the key
    arrives as base64url text without padding (RFC 8292 section 3.2, using
    the alphabet of RFC 4648 section 5) and is turned into the bytes the
    push subscription needs. The text is padded, mapped to the standard
    alphabet of RFC 4648 section 4, decoded with `atob`, and copied into a
    byte array. */
module VapidKey {
  import opened JsValues

  newtype byte = x: int | 0 <= x < 256

  // ---------------------------------------------------------------------
  // Padding and alphabet mapping
  // ---------------------------------------------------------------------

  /** The number of '=' appended: `(4 - n % 4) % 4`. */
  function Padding(n: nat): nat
  {
    (4 - n % 4) % 4
  }

  /** The padded length is a multiple of 4; nothing is added to a multiple
      of 4; a length of the form 4k + 1 gets three '='. */
  lemma PaddingSpec(n: nat)
    ensures Padding(n) < 4
    ensures (n + Padding(n)) % 4 == 0
    ensures Padding(n) == 0 <==> n % 4 == 0
    ensures n % 4 == 1 ==> Padding(n) == 3
  {
  }

  /** `'='.repeat(k)` */
  function Repeat(c: char, k: nat): (r: string)
    ensures |r| == k && forall i :: 0 <= i < k ==> r[i] == c
  {
    seq(k, _ => c)
  }

  /** `s.replace(/from/g, to)` for a single character. */
  function ReplaceChar(s: string, from: char, to: char): (r: string)
    ensures |r| == |s|
    ensures forall i :: 0 <= i < |s| ==> r[i] == (if s[i] == from then to else s[i])
  {
    seq(|s|, i requires 0 <= i < |s| => if s[i] == from then to else s[i])
  }

  /** The padded text with '-' and '_' replaced, as `atob` receives it. */
  function ToStandard(base64String: string): string
  {
    ReplaceChar(ReplaceChar(base64String + Repeat('=', Padding(|base64String|)), '-', '+'), '_', '/')
  }

  /** No '-' or '_' is left, each character of the key is mapped from the
      base64url alphabet to the standard one, and the padding follows. */
  lemma ToStandardSpec(s: string)
    ensures var t := ToStandard(s);
      && |t| == |s| + Padding(|s|)
      && (forall i :: 0 <= i < |t| ==> t[i] != '-' && t[i] != '_')
      && (forall i :: 0 <= i < |s| ==> t[i] == UrlToStandard(s[i]))
      && (forall i :: |s| <= i < |t| ==> t[i] == '=')
  {
  }

  function UrlToStandard(c: char): char
  {
    if c == '-' then '+' else if c == '_' then '/' else c
  }

  // ---------------------------------------------------------------------
  // The alphabets of RFC 4648
  // ---------------------------------------------------------------------

  /** The value of a character of the standard alphabet (section 4), or -1
      for any other character. */
  function SextetValue(c: char): (v: int)
    ensures -1 <= v < 64
  {
    if 'A' <= c <= 'Z' then c as int - 'A' as int
    else if 'a' <= c <= 'z' then c as int - 'a' as int + 26
    else if '0' <= c <= '9' then c as int - '0' as int + 52
    else if c == '+' then 62
    else if c == '/' then 63
    else -1
  }

  predicate IsBase64Char(c: char)
  {
    SextetValue(c) >= 0
  }

  /** The character of the standard alphabet with the given value. */
  function StandardChar(v: int): (c: char)
    requires 0 <= v < 64
    ensures SextetValue(c) == v
  {
    if v < 26 then ('A' as int + v) as char
    else if v < 52 then ('a' as int + v - 26) as char
    else if v < 62 then ('0' as int + v - 52) as char
    else if v == 62 then '+'
    else '/'
  }

  /** The character of the base64url alphabet (section 5) with the given
      value: the standard one except '-' for 62 and '_' for 63. */
  function UrlChar(v: int): (c: char)
    requires 0 <= v < 64
    ensures UrlToStandard(c) == StandardChar(v)
  {
    if v == 62 then '-' else if v == 63 then '_' else StandardChar(v)
  }

  // ---------------------------------------------------------------------
  // atob
  // ---------------------------------------------------------------------

  /** ASCII white space, which `atob` removes first. */
  predicate IsAsciiWhitespace(c: char)
  {
    c == '\t' || c == '\n' || c == '\U{0C}' || c == '\r' || c == ' '
  }

  function StripWhitespace(s: string): (r: string)
    ensures |r| <= |s|
  {
    if s == [] then []
    else (if IsAsciiWhitespace(s[0]) then [] else [s[0]]) + StripWhitespace(s[1..])
  }

  /** Text without white space is left as it is. */
  lemma {:induction false} StripClean(s: string)
    requires forall i :: 0 <= i < |s| ==> !IsAsciiWhitespace(s[i])
    ensures StripWhitespace(s) == s
  {
    if s != [] {
      StripClean(s[1..]);
      assert s == [s[0]] + s[1..];
    }
  }

  /** One or two trailing '=' are removed when the length is a multiple of 4. */
  function DropPadding(d: string): (r: string)
    ensures |r| <= |d|
  {
    if |d| >= 2 && d[|d| - 1] == '=' && d[|d| - 2] == '=' then d[..|d| - 2]
    else if |d| >= 1 && d[|d| - 1] == '=' then d[..|d| - 1]
    else d
  }

  /** Four characters carry three bytes; a final group of two or three
      characters carries one or two bytes, with the spare bits ignored. */
  function DecodeSextets(v: seq<int>): (r: seq<byte>)
    requires forall i :: 0 <= i < |v| ==> 0 <= v[i] < 64
    requires |v| % 4 != 1
    decreases |v|
  {
    if |v| == 0 then []
    else if |v| == 2 then [(v[0] * 4 + v[1] / 16) as byte]
    else if |v| == 3 then [(v[0] * 4 + v[1] / 16) as byte, ((v[1] % 16) * 16 + v[2] / 4) as byte]
    else
      [(v[0] * 4 + v[1] / 16) as byte, ((v[1] % 16) * 16 + v[2] / 4) as byte, ((v[2] % 4) * 64 + v[3]) as byte]
      + DecodeSextets(v[4..])
  }

  /** The binary string of a byte sequence: one character per byte. */
  function BinaryString(bytes: seq<byte>): (r: string)
    ensures |r| == |bytes| && forall i :: 0 <= i < |r| ==> r[i] as int == bytes[i] as int
  {
    seq(|bytes|, i requires 0 <= i < |bytes| => bytes[i] as int as char)
  }

  /** The input with white space removed and, when its length is a
      multiple of 4, one or two trailing '=' removed. */
  function Unpadded(data: string): string
  {
    AfterStrip(StripWhitespace(data))
  }

  function AfterStrip(d0: string): string
  {
    if |d0| % 4 == 0 then DropPadding(d0) else d0
  }

  /** What remains decodes when its length is not 4k + 1 and every
      character is in the standard alphabet. */
  predicate Decodable(d: string)
  {
    |d| % 4 != 1 && forall i :: 0 <= i < |d| ==> IsBase64Char(d[i])
  }

  function Sextets(d: string): (v: seq<int>)
    requires Decodable(d)
    ensures |v| == |d| && |v| % 4 != 1
    ensures forall i :: 0 <= i < |v| ==> 0 <= v[i] < 64 && v[i] == SextetValue(d[i])
  {
    seq(|d|, i requires 0 <= i < |d| => SextetValue(d[i]))
  }

  /** `window.atob`, forgiving-base64 decoding as the HTML standard defines
      it; None is the `InvalidCharacterError` it throws. */
  function Atob(data: string): (r: Option<string>)
    ensures r.Some? ==> forall i :: 0 <= i < |r.value| ==> r.value[i] as int < 256
  {
    var d := Unpadded(data);
    if Decodable(d) then Some(BinaryString(DecodeSextets(Sextets(d)))) else None
  }

  // ---------------------------------------------------------------------
  // urlBase64ToUint8Array
  // ---------------------------------------------------------------------

  /** The bytes `urlBase64ToUint8Array` returns, or None where it throws. */
  function UrlBase64ToBytes(base64String: string): Option<seq<byte>>
  {
    var raw := Atob(ToStandard(base64String));
    if raw.None? then None
    else Some(seq(|raw.value|, i requires 0 <= i < |raw.value| => raw.value[i] as int as byte))
  }

  /** `urlBase64ToUint8Array`: the output array has the decoded length and
      holds the code of each decoded character. */
  method UrlBase64ToUint8Array(base64String: string) returns (output: Option<array<byte>>)
    ensures output.None? <==> Atob(ToStandard(base64String)).None?
    ensures output.Some? ==>
      && fresh(output.value)
      && output.value.Length == |Atob(ToStandard(base64String)).value|
      && (forall i :: 0 <= i < output.value.Length ==> output.value[i] as int == Atob(ToStandard(base64String)).value[i] as int)
      && UrlBase64ToBytes(base64String) == Some(output.value[..])
  {
    var decoded := Atob(ToStandard(base64String));
    if decoded.None? {
      return None;
    }
    var outputArray := CopyCodes(decoded.value);
    output := Some(outputArray);
  }

  /** The loop of `urlBase64ToUint8Array`: a new array as long as the binary
      string, element i set to the code of character i. */
  method CopyCodes(rawData: string) returns (outputArray: array<byte>)
    requires forall i :: 0 <= i < |rawData| ==> rawData[i] as int < 256
    ensures fresh(outputArray)
    ensures outputArray.Length == |rawData|
    ensures forall i :: 0 <= i < |rawData| ==> outputArray[i] as int == rawData[i] as int
    ensures outputArray[..] == seq(|rawData|, i requires 0 <= i < |rawData| => rawData[i] as int as byte)
  {
    outputArray := new byte[|rawData|];
    for i := 0 to |rawData|
      invariant forall j :: 0 <= j < i ==> outputArray[j] as int == rawData[j] as int
    {
      outputArray[i] := rawData[i] as int as byte;
    }
    assert outputArray[..] == seq(|rawData|, i requires 0 <= i < |rawData| => rawData[i] as int as byte);
  }

  /** Removing white space keeps a tail that has none. */
  lemma {:induction false} StripKeepsClean(a: string, c: string)
    requires forall i :: 0 <= i < |c| ==> !IsAsciiWhitespace(c[i])
    ensures StripWhitespace(a + c) == StripWhitespace(a) + c
  {
    if a == [] {
      assert a + c == c;
      StripClean(c);
    } else {
      assert (a + c)[1..] == a[1..] + c;
      StripKeepsClean(a[1..], c);
    }
  }

  /** A key of length 4k + 1 gets three '=', of which `atob` removes at
      most two, so decoding fails. */
  lemma ThreePaddingFails(s: string)
    requires |s| % 4 == 1
    ensures UrlBase64ToBytes(s).None?
  {
    var t := ToStandard(s);
    ToStandardSpec(s);
    PaddingSpec(|s|);
    var body := t[..|s|];
    assert t == body + "===";
    StripKeepsClean(body, "===");
    TrailingEqualsStays(StripWhitespace(body));
    AtobFails(t);
  }

  /** After `atob` strips the padding of text ending in three '=', the
      last character is still '=', which is not in the alphabet. */
  lemma TrailingEqualsStays(c: string)
    ensures !Decodable(AfterStrip(c + "==="))
  {
    var d := AfterStrip(c + "===");
    assert d[|d| - 1] == '=';
    assert !IsBase64Char(d[|d| - 1]);
  }

  lemma AtobFails(data: string)
    requires !Decodable(Unpadded(data))
    ensures Atob(data).None?
  {
  }

  // ---------------------------------------------------------------------
  // The round trip
  // ---------------------------------------------------------------------

  /** Base64url encoding of bytes into values 0..63, three bytes to four
      values, a final one or two bytes to two or three values. */
  function EncodeSextets(b: seq<byte>): (v: seq<int>)
    ensures forall i :: 0 <= i < |v| ==> 0 <= v[i] < 64
    ensures |v| % 4 != 1
    ensures |v| == 4 * (|b| / 3) + (if |b| % 3 == 0 then 0 else |b| % 3 + 1)
  {
    if |b| == 0 then []
    else if |b| == 1 then [b[0] as int / 4, (b[0] as int % 4) * 16]
    else if |b| == 2 then [b[0] as int / 4, (b[0] as int % 4) * 16 + b[1] as int / 16, (b[1] as int % 16) * 4]
    else
      [b[0] as int / 4, (b[0] as int % 4) * 16 + b[1] as int / 16, (b[1] as int % 16) * 4 + b[2] as int / 64, b[2] as int % 64]
      + EncodeSextets(b[3..])
  }

  /** The unpadded base64url text of some bytes, as the server publishes
      its key. */
  function Base64UrlEncode(b: seq<byte>): (s: string)
    ensures |s| == |EncodeSextets(b)|
  {
    var v := EncodeSextets(b);
    seq(|v|, i requires 0 <= i < |v| => UrlChar(v[i]))
  }

  /** One group: the bits three bytes spread over four values are
      gathered back into the same three bytes. */
  lemma GroupRoundTrip(x: int, y: int, z: int)
    requires 0 <= x < 256 && 0 <= y < 256 && 0 <= z < 256
    ensures x / 4 * 4 + ((x % 4) * 16 + y / 16) / 16 == x
    ensures (((x % 4) * 16 + y / 16) % 16) * 16 + ((y % 16) * 4 + z / 64) / 4 == y
    ensures (((y % 16) * 4 + z / 64) % 4) * 64 + z % 64 == z
  {
    assert ((x % 4) * 16 + y / 16) / 16 == x % 4 && ((x % 4) * 16 + y / 16) % 16 == y / 16;
    assert ((y % 16) * 4 + z / 64) / 4 == y % 16 && ((y % 16) * 4 + z / 64) % 4 == z / 64;
  }

  /** Four values or more decode three bytes, then the rest. */
  lemma DecodeUnfold(v: seq<int>)
    requires forall i :: 0 <= i < |v| ==> 0 <= v[i] < 64
    requires |v| % 4 != 1 && |v| >= 4
    ensures DecodeSextets(v) ==
      [(v[0] * 4 + v[1] / 16) as byte, ((v[1] % 16) * 16 + v[2] / 4) as byte, ((v[2] % 4) * 64 + v[3]) as byte]
      + DecodeSextets(v[4..])
  {
  }

  /** The four values of the first three bytes, and the rest. */
  lemma EncodeUnfold(b: seq<byte>)
    requires |b| >= 3
    ensures var v := EncodeSextets(b);
      |v| >= 4 && v[4..] == EncodeSextets(b[3..]) &&
      v[0] == b[0] as int / 4 && v[1] == (b[0] as int % 4) * 16 + b[1] as int / 16 &&
      v[2] == (b[1] as int % 16) * 4 + b[2] as int / 64 && v[3] == b[2] as int % 64
  {
  }

  /** The first group decodes to the first three bytes. */
  lemma GroupBytes(b: seq<byte>, v: seq<int>)
    requires |b| >= 3 && |v| >= 4
    requires v[0] == b[0] as int / 4 && v[1] == (b[0] as int % 4) * 16 + b[1] as int / 16
    requires v[2] == (b[1] as int % 16) * 4 + b[2] as int / 64 && v[3] == b[2] as int % 64
    ensures (v[0] * 4 + v[1] / 16) as byte == b[0] && ((v[1] % 16) * 16 + v[2] / 4) as byte == b[1]
    ensures ((v[2] % 4) * 64 + v[3]) as byte == b[2]
  {
    GroupRoundTrip(b[0] as int, b[1] as int, b[2] as int);
  }

  /** Two trailing bytes survive their three values. */
  lemma DecodeEncodeTwo(x: byte, y: byte)
    ensures DecodeSextets(EncodeSextets([x, y])) == [x, y]
  {
    var v := EncodeSextets([x, y]);
    assert v == [x as int / 4, (x as int % 4) * 16 + y as int / 16, (y as int % 16) * 4];
    GroupRoundTrip(x as int, y as int, 0);
    assert DecodeSextets(v) == [(v[0] * 4 + v[1] / 16) as byte, ((v[1] % 16) * 16 + v[2] / 4) as byte];
  }

  /** One trailing byte survives its two values. */
  lemma DecodeEncodeOne(x: byte)
    ensures DecodeSextets(EncodeSextets([x])) == [x]
  {
    var v := EncodeSextets([x]);
    assert v == [x as int / 4, (x as int % 4) * 16];
    GroupRoundTrip(x as int, 0, 0);
    assert DecodeSextets(v) == [(v[0] * 4 + v[1] / 16) as byte];
  }

  /** Decoding the values of any bytes gives back the bytes. */
  lemma {:induction false} DecodeEncode(b: seq<byte>)
    ensures DecodeSextets(EncodeSextets(b)) == b
  {
    if |b| >= 3 {
      var v := EncodeSextets(b);
      EncodeUnfold(b);
      DecodeEncode(b[3..]);
      DecodeUnfold(v);
      GroupBytes(b, v);
      assert b == [b[0], b[1], b[2]] + b[3..];
    } else if |b| == 2 {
      DecodeEncodeTwo(b[0], b[1]);
      assert b == [b[0], b[1]];
    } else if |b| == 1 {
      DecodeEncodeOne(b[0]);
      assert b == [b[0]];
    }
  }

  /** The standard-alphabet text of a sequence of values. */
  function StandardText(v: seq<int>): (t: string)
    requires forall i :: 0 <= i < |v| ==> 0 <= v[i] < 64
    ensures |t| == |v| && forall i :: 0 <= i < |t| ==> SextetValue(t[i]) == v[i]
  {
    seq(|v|, i requires 0 <= i < |v| => StandardChar(v[i]))
  }

  /** What `atob` receives for the padded key: its standard-alphabet text
      followed by the padding. */
  lemma StandardOfEncoded(b: seq<byte>)
    ensures var v := EncodeSextets(b);
      ToStandard(Base64UrlEncode(b)) == StandardText(v) + Repeat('=', Padding(|v|))
  {
    var s := Base64UrlEncode(b);
    ToStandardSpec(s);
  }

  /** Stripping the padding of a padded standard text leaves the text. */
  lemma DropPaddingOfPadded(v: seq<int>)
    requires forall i :: 0 <= i < |v| ==> 0 <= v[i] < 64
    requires |v| % 4 != 1
    ensures DropPadding(StandardText(v) + Repeat('=', Padding(|v|))) == StandardText(v)
  {
    var std := StandardText(v);
    var t := std + Repeat('=', Padding(|v|));
    var p := Padding(|v|);
    if p == 2 {
      assert t[..|t| - 2] == std;
    } else if p == 1 {
      assert t[|t| - 2] == std[|std| - 1];
      assert SextetValue(t[|t| - 2]) >= 0;
      assert t[..|t| - 1] == std;
    } else {
      assert t == std;
      if |t| > 0 {
        assert SextetValue(t[|t| - 1]) >= 0;
      }
    }
  }

  /** `atob` of a padded standard text decodes its values. */
  lemma AtobOfPadded(v: seq<int>)
    requires forall i :: 0 <= i < |v| ==> 0 <= v[i] < 64
    requires |v| % 4 != 1
    ensures Atob(StandardText(v) + Repeat('=', Padding(|v|))) == Some(BinaryString(DecodeSextets(v)))
  {
    var std := StandardText(v);
    var t := std + Repeat('=', Padding(|v|));
    PaddedUnpads(v);
    assert Decodable(std);
    assert Sextets(std) == v;
    AtobDecodes(t);
  }

  /** The padded text has no white space, so `atob` only strips its
      padding. */
  lemma PaddedUnpads(v: seq<int>)
    requires forall i :: 0 <= i < |v| ==> 0 <= v[i] < 64
    requires |v| % 4 != 1
    ensures Unpadded(StandardText(v) + Repeat('=', Padding(|v|))) == StandardText(v)
  {
    var std := StandardText(v);
    var pad := Repeat('=', Padding(|v|));
    var t := std + pad;
    PaddedIsClean(std, Padding(|v|));
    UnpaddedOfClean(t);
    PaddingSpec(|v|);
    assert AfterStrip(t) == DropPadding(t);
    DropPaddingOfPadded(v);
  }

  lemma UnpaddedOfClean(t: string)
    requires forall i :: 0 <= i < |t| ==> !IsAsciiWhitespace(t[i])
    ensures Unpadded(t) == AfterStrip(t)
  {
    StripClean(t);
  }

  lemma PaddedIsClean(std: string, p: nat)
    requires forall i :: 0 <= i < |std| ==> SextetValue(std[i]) >= 0
    ensures var t := std + Repeat('=', p);
      forall i :: 0 <= i < |t| ==> !IsAsciiWhitespace(t[i])
  {
    var pad := Repeat('=', p);
    var t := std + pad;
    forall i | 0 <= i < |t| ensures !IsAsciiWhitespace(t[i]) {
      if i < |std| {
        assert t[i] == std[i];
      } else {
        assert t[i] == pad[i - |std|];
      }
    }
  }

  lemma AtobDecodes(data: string)
    requires Decodable(Unpadded(data))
    ensures Atob(data) == Some(BinaryString(DecodeSextets(Sextets(Unpadded(data)))))
  {
  }

  /** For any bytes whose unpadded base64url text is s, decoding s gives the
      bytes back. */
  lemma RoundTrip(b: seq<byte>)
    ensures UrlBase64ToBytes(Base64UrlEncode(b)) == Some(b)
  {
    var v := EncodeSextets(b);
    StandardOfEncoded(b);
    AtobOfPadded(v);
    DecodeEncode(b);
    var raw := BinaryString(b);
    assert seq(|raw|, i requires 0 <= i < |raw| => raw[i] as int as byte) == b;
  }

  /** A P-256 public key is 65 bytes; its text is 87 characters and gets one
      '=' of padding. */
  lemma P256KeyLength(b: seq<byte>)
    requires |b| == 65
    ensures |Base64UrlEncode(b)| == 87
    ensures Padding(|Base64UrlEncode(b)|) == 1
  {
  }
}
