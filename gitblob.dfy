/** Git's blob object identity: the SHA-1 of `blob <byte length>\0`
    followed by the content bytes. SHA-1 itself is a parameter. */
module GitBlob {
  import opened Wrappers
  import opened Text
  import opened Utf8

  /** The bytes of an ASCII string. */
  function AsciiBytes(s: string): (r: seq<Byte>)
    requires IsAscii(s)
    ensures |r| == |s|
  {
    seq(|s|, i requires 0 <= i < |s| => s[i] as int)
  }

  /** The bytes read back as characters. */
  function AsText(b: seq<Byte>): (r: string)
    ensures |r| == |b|
  {
    seq(|b|, i requires 0 <= i < |b| => b[i] as char)
  }

  const BlobTag: seq<Byte> := [98, 108, 111, 98, 32]

  /** The object header `blob <n>\0` for content of n bytes. */
  function BlobHeader(content: string): string {
    "blob " + NatToString(ByteLength(content)) + "\0"
  }

  /** The bytes `computeBlobSha` hashes: the header, then the content. */
  function BlobPreimage(content: string): seq<Byte> {
    Encode(BlobHeader(content)) + Encode(content)
  }

  /** `computeBlobSha(content)`: the hash of a Git blob object whose body
      is the content's UTF-8 bytes. */
  function ComputeBlobSha(content: string, sha1: seq<Byte> -> string): (r: string)
    ensures exists obj :: ParseBlobObject(obj) == Some(Encode(content)) && r == sha1(obj)
  {
    ParsePreimage(content);
    sha1(BlobPreimage(content))
  }

  lemma DigitsAscii(s: string)
    requires AllDigits(s)
    ensures IsAscii(s)
    ensures '\0' !in s
  {
    assert forall i :: 0 <= i < |s| ==> IsDigit(s[i]);
  }

  /** The preimage is, in order: "blob ", the decimal byte length of the
      content's UTF-8 encoding, one NUL byte, and those bytes. */
  lemma PreimageLayout(content: string)
    ensures var digits := NatToString(ByteLength(content));
      IsAscii(digits) &&
      BlobPreimage(content) == BlobTag + AsciiBytes(digits) + [0] + Encode(content)
  {
    var digits := NatToString(ByteLength(content));
    NatToStringDigits(ByteLength(content));
    DigitsAscii(digits);
    HeaderBytes(digits);
  }

  lemma HeaderBytes(d: string)
    requires IsAscii(d)
    ensures Encode("blob " + d + "\0") == BlobTag + AsciiBytes(d) + [0]
  {
    var h := "blob " + d + "\0";
    var e := BlobTag + AsciiBytes(d) + [0];
    assert IsAscii(h) by {
      forall i | 0 <= i < |h| ensures h[i] as int < 0x80 {
        if 5 <= i < 5 + |d| { assert h[i] == d[i - 5]; }
      }
    }
    EncodeAscii(h);
    forall i | 0 <= i < |h| ensures Encode(h)[i] == e[i] {
      if 5 <= i < 5 + |d| { assert h[i] == d[i - 5]; }
    }
  }

  /** The first zero byte at or after `from`, or -1. */
  function FirstZero(b: seq<Byte>, from: nat): (r: int)
    requires from <= |b|
    ensures r == -1 || (from <= r < |b| && b[r] == 0)
    ensures forall k :: from <= k < |b| && (r == -1 || k < r) ==> b[k] != 0
    decreases |b| - from
  {
    if from == |b| then -1 else if b[from] == 0 then from else FirstZero(b, from + 1)
  }

  /** Reads a blob object back: checks the "blob " tag, the decimal length
      up to the first NUL and that exactly that many bytes follow. */
  function ParseBlobObject(b: seq<Byte>): (r: Option<seq<Byte>>)
    ensures r.Some? ==> |r.value| < |b| && b[|b| - |r.value|..] == r.value
  {
    if |b| < 5 || b[..5] != BlobTag then None
    else
      var p := FirstZero(b, 5);
      if p < 0 then None
      else
        var digits := AsText(b[5..p]);
        if digits == [] || !AllDigits(digits) then None
        else if DigitsValue(digits) != |b| - p - 1 then None
        else Some(b[p + 1..])
  }

  /** The header is self-delimiting: parsing a preimage gives back exactly
      the encoded content. */
  lemma ParsePreimage(content: string)
    ensures ParseBlobObject(BlobPreimage(content)) == Some(Encode(content))
  {
    var digits := NatToString(ByteLength(content));
    PreimageLayout(content);
    NatToStringValue(ByteLength(content));
    ParseLayout(digits, Encode(content));
  }

  /** A tag, a non-empty run of digits naming the body's length, a NUL and
      the body parse back to the body. */
  lemma ParseLayout(digits: string, body: seq<Byte>)
    requires IsAscii(digits) && digits != [] && AllDigits(digits)
    requires DigitsValue(digits) == |body|
    ensures ParseBlobObject(BlobTag + AsciiBytes(digits) + [0] + body) == Some(body)
  {
    var ds := AsciiBytes(digits);
    var b := BlobTag + ds + [0] + body;
    var p := 5 + |ds|;
    assert b[..5] == BlobTag;
    assert b[5..p] == ds;
    assert b[p + 1..] == body;
    forall k | 5 <= k < p ensures b[k] != 0 {
      assert b[k] == ds[k - 5];
      assert IsDigit(digits[k - 5]);
    }
    FirstZeroAt(b, 5, p);
    AsTextAscii(digits);
  }

  /** The first zero at or after `from` is at p when none comes before. */
  lemma FirstZeroAt(b: seq<Byte>, from: nat, p: nat)
    requires from <= p < |b| && b[p] == 0
    requires forall k :: from <= k < p ==> b[k] != 0
    ensures FirstZero(b, from) == p
  {
  }

  lemma AsTextAscii(s: string)
    requires IsAscii(s)
    ensures AsText(AsciiBytes(s)) == s
  {
  }

  /** Equal blob objects mean equal content bytes. */
  lemma PreimageInjective(c1: string, c2: string)
    requires BlobPreimage(c1) == BlobPreimage(c2)
    ensures Encode(c1) == Encode(c2)
  {
    ParsePreimage(c1);
    ParsePreimage(c2);
  }
}
