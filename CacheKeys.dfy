/** The keys under which both cache tiers store an image: one per bundled
    resource, one per URL. */
module CacheKeys {
  import opened KotlinInt
  import opened Optional
  import opened HexEncoding
  import opened Decimal
  import opened JvmString

  const DRAWABLE_PREFIX: string := "drawable_"

  /** The 16-byte output of an MD5 digest. */
  type Digest = s: seq<Byte> | |s| == 16
    witness [0, 0, 0, 0, 0, 0, 0, 0, 0, 0, 0, 0, 0, 0, 0, 0]

  /** The key of a bundled resource, `"drawable_$resId"`: the prefix, then
      the decimal id, which can be read back. */
  function DrawableKey(resId: Int32): (key: string)
    ensures |key| > |DRAWABLE_PREFIX| && key[..|DRAWABLE_PREFIX|] == DRAWABLE_PREFIX
    ensures ParseInt(key[|DRAWABLE_PREFIX|..]) == Some(resId as int)
  {
    var key := DRAWABLE_PREFIX + IntToDecimal(resId);
    assert key[|DRAWABLE_PREFIX|..] == IntToDecimal(resId);
    key
  }

  /** Two resources never share a key. */
  lemma DrawableKeyInjective(a: Int32, b: Int32)
    requires DrawableKey(a) == DrawableKey(b)
    ensures a == b
  {
    assert ParseInt(DrawableKey(a)[|DRAWABLE_PREFIX|..]) == Some(a as int);
  }

  /** `hashKeyForDisk(url)`. `md5` is the digest `MessageDigest` computes
      over the URL, or `None` when `getInstance("MD5")` throws, in which case
      the key is the decimal text of `url.hashCode()`. */
  function HashKeyForDisk(url: string, md5: Option<string -> Digest>): (key: string)
    ensures md5.Some? ==> |key| == 32 && HexDecode(key) == Some(UnsignedAll(md5.value(url)))
    ensures md5.None? ==> ParseInt(key) == Some(HashCode(url) as int)
  {
    match md5
    case Some(digestOf) =>
      HexRoundTrip(digestOf(url));
      HexString(digestOf(url))
    case None => IntToDecimal(HashCode(url))
  }

  /** With a digest, a URL key is 32 lowercase hex digits. */
  lemma {:induction false} UrlKeyIsHex(url: string, digestOf: string -> Digest)
    ensures |HashKeyForDisk(url, Some(digestOf))| == 32
    ensures forall j :: 0 <= j < 32 ==> IsHexDigit(HashKeyForDisk(url, Some(digestOf))[j])
  {
    HexStringAlphabet(digestOf(url));
  }

  /** Two URLs share a key only when their digests collide. */
  lemma {:induction false} UrlKeysCollideOnlyOnDigest(u: string, v: string, digestOf: string -> Digest)
    requires HashKeyForDisk(u, Some(digestOf)) == HashKeyForDisk(v, Some(digestOf))
    ensures digestOf(u) == digestOf(v)
  {
    HexStringInjective(digestOf(u), digestOf(v));
  }

  /** A resource key and a URL key are never equal: only the former holds an
      underscore, so a resource never overwrites a downloaded image's files
      or memory entry, nor the reverse. */
  lemma {:induction false} ResourceAndUrlKeysDisjoint(resId: Int32, url: string, md5: Option<string -> Digest>)
    ensures DrawableKey(resId) != HashKeyForDisk(url, md5)
  {
    var d := DrawableKey(resId);
    assert d[8] == '_';
    var k := HashKeyForDisk(url, md5);
    if md5.Some? {
      UrlKeyIsHex(url, md5.value);
    }
    assert forall j :: 0 <= j < |k| ==> k[j] != '_';
  }
}
