# ImageCache, modelled in Dafny

This project models the caching core of the CacheMate Android app: the class
`ImageCache` in `app/src/main/java/com/ipsa/ipscache/cache/ImageCache.kt`. It is a
two-tier image cache. An in-memory `LruCache` sits in front of a directory of
files, and the network is the fallback. The model covers four parts:

- **Sample size** (`SampleSize.dfy`). `calculateInSampleSize` computes the
  integer downsampling divisor from the bounds that a bounds-only decode
  reports and a target bound. Both load paths use a 1024 x 1024 target.
  `Math.round` on the float ratio is modelled exactly as the floor of
  `n / d + 1/2`. An independent definition ("the nearest integer, ties
  up") is proved equivalent to it.
- **Hex encoding** (`HexEncoding.dfy`). `bytesToHexString` is a method with
  the source's loop, proved against a pure function. Proved about that
  function:
  - the output is two lowercase hex digits per byte, high nibble first;
  - a signed byte is written as its unsigned value;
  - a decoder recovers every byte, so the encoding is injective.
- **Cache keys** (`CacheKeys.dfy`, `Decimal.dfy`, `JvmString.dfy`).
  - A resource key is `"drawable_"` followed by the decimal id. The id can
    be read back from the key.
  - A URL key is the hex text of a 16-byte MD5 digest. MD5 is an oracle.
  - When no digest is available, a URL key is the decimal text of
    `String.hashCode()`. That hash is modelled exactly: it runs over
    UTF-16 code units with `Int` overflow, and it is proved equal to the
    documented closed form reduced to 32 bits.
  - Resource keys and URL keys never coincide.
- **Load paths** (`ImageCache.dfy`). `loadImage` and `loadDrawableImage`
  are methods of a class `ImageCache`. It has four fields: `capacityKb` (the
  `LruCache` capacity), `memory` (the
  `LruCache` entries), `disk` (the files in the cache directory) and a
  ghost `trace` of the steps each load takes. Each method is proved
  against a pure step function. The lemmas about those functions state:
  - the order of lookups;
  - which tiers each outcome fills or leaves alone;
  - that a disk file that does not decode falls through to a download;
  - that `loadDrawableImage` writes the disk tier but never reads it.

`KotlinInt.dfy` holds the JVM integer semantics used above: `Int` and `Long`
ranges, narrowing with wrap-around and division rounding toward zero. It also
holds the `LruCache` capacity computation `(maxMemory / 1024).toInt() / 8`.

Platform calls are parameters. A `Platform` value supplies MD5, the
resource and file decoders, PNG encoding and the two network connections.
A `Happenings` value supplies what the environment decides during one call:
which memory entries the `LruCache` evicts, and how the disk write ends.

Behaviour of the code that the model keeps:

- the disk tier stores the bitmap re-encoded as PNG, not the downloaded bytes;
- the file is written in place with no temporary file, so a failed write can
  leave a partial file (`WriteOutcome.Interrupted`); the model claims no
  atomicity;
- `loadDrawableImage` never consults the disk tier, although it writes it;
- a disk file that fails to decode is not reported as an error: the load falls
  through to a download, which overwrites the file on success;
- the key used when MD5 is unavailable is the decimal text of `hashCode()`.

## Model

| member | source | states |
|---|---|---|
| KotlinInt.Wrap32 | app/src/main/java/com/ipsa/ipscache/cache/ImageCache.kt:28 | `Long.toInt()` keeps the value modulo 2^32 and leaves values already in `Int` range unchanged |
| KotlinInt.TruncDiv | app/src/main/java/com/ipsa/ipscache/cache/ImageCache.kt:28-29 | Kotlin `/` by a positive divisor rounds toward zero, for either sign of the dividend |
| KotlinInt.CacheSizeKb | app/src/main/java/com/ipsa/ipscache/cache/ImageCache.kt:28-29 | the capacity as the source computes it: heap bytes divided by 1024, narrowed to `Int`, divided by 8; its meaning is stated by the two lemmas below |
| KotlinInt.CacheSizeIsEighthOfHeap | app/src/main/java/com/ipsa/ipscache/cache/ImageCache.kt:28-29 | for heaps whose KiB count fits an `Int`, the `LruCache` capacity is one eighth of the heap in whole KiB |
| KotlinInt.UnlimitedHeapGivesNoCapacity | app/src/main/java/com/ipsa/ipscache/cache/ImageCache.kt:28-31 | a heap reported as `Long.MAX_VALUE` narrows to -1 KiB and gives a capacity of 0, and `LruCache` construction fails |
| KotlinInt.SizeOfKb | app/src/main/java/com/ipsa/ipscache/cache/ImageCache.kt:32-34 | `sizeOf` weighs a bitmap at its byte count in whole KiB, truncated |
| SampleSize.FloorDiv | app/src/main/java/com/ipsa/ipscache/cache/ImageCache.kt:166-167 | the floor of a rational quotient, for a divisor of either sign |
| SampleSize.RoundHalfUp | app/src/main/java/com/ipsa/ipscache/cache/ImageCache.kt:166-167 | `Math.round(n / d)` as the floor of `(2n + d) / 2d`; `RoundHalfUpIsNearest` states what it means |
| SampleSize.RoundHalfUpIsNearest | app/src/main/java/com/ipsa/ipscache/cache/ImageCache.kt:166-167 | the `Math.round` of `n / d` is exactly the integer nearest `n / d`, ties going up (both directions) |
| SampleSize.InSampleSize | app/src/main/java/com/ipsa/ipscache/cache/ImageCache.kt:153-171 | the divisor is at least 1; it is 1 when either bound is 0 (no division) and 1 when the image fits within both bounds |
| SampleSize.InSampleSizeWhenTooLarge | app/src/main/java/com/ipsa/ipscache/cache/ImageCache.kt:165-170 | an image exceeding a non-zero bound gets the smaller of the two nearest-integer ratios, clamped to at least 1 |
| SampleSize.InSampleSizeExamples | app/src/main/java/com/ipsa/ipscache/cache/ImageCache.kt:160-170 | 2048x2048 in 1024x1024 gives 2; 500x500 gives 1; a zero bound gives 1; 100 high by 4000 wide gives 1; failed bounds (-1) give 1 |
| HexEncoding.HexDigit | app/src/main/java/com/ipsa/ipscache/cache/ImageCache.kt:188 | a nibble is written as the matching one of the sixteen lowercase hex digits |
| HexEncoding.Unsigned | app/src/main/java/com/ipsa/ipscache/cache/ImageCache.kt:188 | `0xFF and byte.toInt()` is the value in 0..255 congruent to the signed byte modulo 256 |
| HexEncoding.UnsignedInjective | app/src/main/java/com/ipsa/ipscache/cache/ImageCache.kt:188 | distinct signed bytes have distinct unsigned values |
| HexEncoding.ToHexString | app/src/main/java/com/ipsa/ipscache/cache/ImageCache.kt:188 | `Integer.toHexString` of a non-negative value gives hex digits with no leading zero that denote the value; one digit below 16, two below 256 |
| HexEncoding.PaddedHex | app/src/main/java/com/ipsa/ipscache/cache/ImageCache.kt:188-192 | padding a one-digit hex string with '0' yields exactly the high and low nibble digits |
| HexEncoding.NegativeByteHex | app/src/main/java/com/ipsa/ipscache/cache/ImageCache.kt:188 | a negative byte encodes as its value plus 256 (-1 as "ff", -128 as "80") |
| HexEncoding.ByteHex | app/src/main/java/com/ipsa/ipscache/cache/ImageCache.kt:188-192 | the two characters one signed byte contributes, through its unsigned value; `NegativeByteHex` and `PaddedHex` state them |
| HexEncoding.HexString | app/src/main/java/com/ipsa/ipscache/cache/ImageCache.kt:185-195 | the bytes' pairs are appended in order, so the output has two characters per byte |
| HexEncoding.HexStringLayout | app/src/main/java/com/ipsa/ipscache/cache/ImageCache.kt:185-195 | byte i of the digest is written at positions 2i and 2i+1, high nibble first, zero-padded |
| HexEncoding.HexStringAlphabet | app/src/main/java/com/ipsa/ipscache/cache/ImageCache.kt:185-195 | only the characters 0-9 and a-f appear |
| HexEncoding.HexRoundTrip | app/src/main/java/com/ipsa/ipscache/cache/ImageCache.kt:185-195 | decoding the pairs of hex digits gives back every byte as unsigned |
| HexEncoding.HexStringInjective | app/src/main/java/com/ipsa/ipscache/cache/ImageCache.kt:185-195 | two byte arrays with the same hex text are equal |
| HexEncoding.BytesToHexString | app/src/main/java/com/ipsa/ipscache/cache/ImageCache.kt:185-195 | the `StringBuilder` loop builds exactly the encoding above |
| Decimal.NatToDecimal | app/src/main/java/com/ipsa/ipscache/cache/ImageCache.kt:45 | the decimal digits of a natural number have no leading zero and denote the number |
| Decimal.IntToDecimal | app/src/main/java/com/ipsa/ipscache/cache/ImageCache.kt:45 | `Int.toString()` uses only digits and '-', and parsing it back gives the integer |
| Decimal.IntToDecimalInjective | app/src/main/java/com/ipsa/ipscache/cache/ImageCache.kt:181 | distinct integers have distinct decimal texts |
| JvmString.Utf16Units | app/src/main/java/com/ipsa/ipscache/cache/ImageCache.kt:181 | the UTF-16 code units `hashCode` runs over, a surrogate pair for a character above U+FFFF |
| JvmString.HashOfUnits | app/src/main/java/com/ipsa/ipscache/cache/ImageCache.kt:181 | the `hashCode` loop `h = 31*h + unit` with `Int` overflow; `HashIsPowerSumMod32` states its closed form |
| JvmString.HashCode | app/src/main/java/com/ipsa/ipscache/cache/ImageCache.kt:181 | `String.hashCode()` of the URL, the fallback key's value; its closed form and examples are the two lemmas below |
| JvmString.HashIsPowerSumMod32 | app/src/main/java/com/ipsa/ipscache/cache/ImageCache.kt:181 | the overflowing `hashCode` loop equals the sum of u[i]*31^(n-1-i) reduced to 32 bits |
| JvmString.HashCodeExamples | app/src/main/java/com/ipsa/ipscache/cache/ImageCache.kt:181 | "" hashes to 0, "a" to 97, "ab" to 3105 |
| CacheKeys.DrawableKey | app/src/main/java/com/ipsa/ipscache/cache/ImageCache.kt:45 | a resource key is "drawable_" followed by text that parses back to the resource id |
| CacheKeys.DrawableKeyInjective | app/src/main/java/com/ipsa/ipscache/cache/ImageCache.kt:45 | two resources never share a key |
| CacheKeys.HashKeyForDisk | app/src/main/java/com/ipsa/ipscache/cache/ImageCache.kt:175-183 | with MD5, the key is 32 characters that decode to the digest's bytes; without it, the key parses to `url.hashCode()` |
| CacheKeys.UrlKeyIsHex | app/src/main/java/com/ipsa/ipscache/cache/ImageCache.kt:175-183 | a digest key is 32 lowercase hex digits |
| CacheKeys.UrlKeysCollideOnlyOnDigest | app/src/main/java/com/ipsa/ipscache/cache/ImageCache.kt:175-183 | two URLs get the same digest key only when their MD5 digests are equal |
| CacheKeys.ResourceAndUrlKeysDisjoint | app/src/main/java/com/ipsa/ipscache/cache/ImageCache.kt:175-183 | no resource key equals any URL key, with or without MD5 |
| ImageCacheModel.PutInMemory | app/src/main/java/com/ipsa/ipscache/cache/ImageCache.kt:95 | after `put`, the key holds the bitmap; every other entry is unchanged or evicted |
| ImageCacheModel.SaveToDisk | app/src/main/java/com/ipsa/ipscache/cache/ImageCache.kt:142-150 | only the key's file changes: the PNG when written, untouched when the open fails, partial bytes when interrupted |
| ImageCacheModel.DownloadImage | app/src/main/java/com/ipsa/ipscache/cache/ImageCache.kt:114-139 | a failed first connection gives null; an image within 1024x1024 is fetched at sample size 1; any result comes from a sample size of at least 1 |
| ImageCacheModel.DecodeDrawable | app/src/main/java/com/ipsa/ipscache/cache/ImageCache.kt:54-63 | a resource within 1024x1024 is decoded at sample size 1; any result comes from a sample size of at least 1 |
| ImageCacheModel.LoadImageStep | app/src/main/java/com/ipsa/ipscache/cache/ImageCache.kt:79-111 | `loadImage(url)`: the key from `hashKeyForDisk`, then the keyed load; the `LoadImage*` lemmas state its outcomes |
| ImageCacheModel.LoadByKeyStep | app/src/main/java/com/ipsa/ipscache/cache/ImageCache.kt:82-111 | a memory hit returns the entry and changes nothing; a miss continues with the disk |
| ImageCacheModel.DiskStep | app/src/main/java/com/ipsa/ipscache/cache/ImageCache.kt:88-105 | a file that decodes is put into memory and returned; a missing or undecodable file falls through to the download |
| ImageCacheModel.DownloadStep | app/src/main/java/com/ipsa/ipscache/cache/ImageCache.kt:100-105 | a failed download changes nothing; a bitmap is put into memory and then saved to disk |
| ImageCacheModel.LoadDrawableStep | app/src/main/java/com/ipsa/ipscache/cache/ImageCache.kt:44-76 | `loadDrawableImage(resId)`: the key `"drawable_$resId"`, then the keyed load; the `LoadDrawable*` lemmas state its outcomes |
| ImageCacheModel.DrawableByKeyStep | app/src/main/java/com/ipsa/ipscache/cache/ImageCache.kt:47-75 | a memory hit returns the entry and changes nothing; a miss decodes the resource, never looking at the disk |
| ImageCacheModel.DecodeStep | app/src/main/java/com/ipsa/ipscache/cache/ImageCache.kt:52-75 | a failed decode changes nothing; a bitmap is put into memory and then saved to disk |
| ImageCacheModel.LoadImageMemoryHit | app/src/main/java/com/ipsa/ipscache/cache/ImageCache.kt:80-86 | a memory hit returns the cached bitmap, changes nothing and touches neither disk nor network |
| ImageCacheModel.LoadImageDiskHit | app/src/main/java/com/ipsa/ipscache/cache/ImageCache.kt:90-97 | a file that decodes is returned and put into memory, with the disk unchanged and no download |
| ImageCacheModel.LoadImageCorruptFileRefetches | app/src/main/java/com/ipsa/ipscache/cache/ImageCache.kt:91-101 | a file that fails to decode is treated as absent: the load downloads and returns what it would without the file |
| ImageCacheModel.LoadImageDownloadFails | app/src/main/java/com/ipsa/ipscache/cache/ImageCache.kt:101-105 | a failed download returns null and leaves both tiers unchanged |
| ImageCacheModel.LoadImageDownloadSucceeds | app/src/main/java/com/ipsa/ipscache/cache/ImageCache.kt:101-105 | a downloaded bitmap is put into memory, saved to disk when the write succeeds, and returned whatever the write does |
| ImageCacheModel.LoadImageOnlyTouchesItsKey | app/src/main/java/com/ipsa/ipscache/cache/ImageCache.kt:79-111 | no other key's file changes, and other memory entries only disappear by eviction |
| ImageCacheModel.LoadImageTwiceFetchesOnce | app/src/main/java/com/ipsa/ipscache/cache/ImageCache.kt:79-111 | in the map model of `put`, where memory keeps the new entry: after a load that returns a bitmap, loading the same URL again returns it from memory with no download |
| ImageCacheModel.BitmapLargerThanCapacity | app/src/main/java/com/ipsa/ipscache/cache/ImageCache.kt:28-34 | a full-size 4000 x 1000 bitmap (sample size 1, as line 168 gives) weighs more than a 64 MiB heap's whole `LruCache` capacity |
| ImageCacheModel.LoadImageWarmFromDisk | app/src/main/java/com/ipsa/ipscache/cache/ImageCache.kt:79-111 | after a cold download whose file was written and re-decodes, a load with memory cleared is served from disk with no download |
| ImageCacheModel.LoadImageAfterInterruptedWrite | app/src/main/java/com/ipsa/ipscache/cache/ImageCache.kt:142-150 | a partial file left by an interrupted write sends the next cold load back to the network |
| ImageCacheModel.LoadDrawableMemoryHit | app/src/main/java/com/ipsa/ipscache/cache/ImageCache.kt:47-50 | a memory hit returns the cached bitmap and takes no other step |
| ImageCacheModel.LoadDrawableNeverReadsDisk | app/src/main/java/com/ipsa/ipscache/cache/ImageCache.kt:44-76 | the result does not depend on the disk tier and no step reads it |
| ImageCacheModel.LoadDrawableDecodes | app/src/main/java/com/ipsa/ipscache/cache/ImageCache.kt:52-75 | on a miss the resource is decoded; success fills memory and the disk write, failure changes nothing |
| ImageCacheModel.LoadDrawableIgnoresWarmDisk | app/src/main/java/com/ipsa/ipscache/cache/ImageCache.kt:44-76 | even with its file written, a drawable is decoded from the resource again once memory is cleared |
| ImageCacheModel.ImageCache.constructor | app/src/main/java/com/ipsa/ipscache/cache/ImageCache.kt:26-41 | given a positive capacity, the cache starts with empty memory, capacity `CacheSizeKb(maxMemory)` and the existing files |
| ImageCacheModel.ImageCache.Put | app/src/main/java/com/ipsa/ipscache/cache/ImageCache.kt:65 | `memoryCache.put` updates memory as `PutInMemory` says and nothing else |
| ImageCacheModel.ImageCache.SaveBitmapToDisk | app/src/main/java/com/ipsa/ipscache/cache/ImageCache.kt:142-150 | the disk changes as `SaveToDisk` says and memory does not |
| ImageCacheModel.ImageCache.LoadDrawableImage | app/src/main/java/com/ipsa/ipscache/cache/ImageCache.kt:44-76 | result, new tiers and steps taken are those of `LoadDrawableStep` |
| ImageCacheModel.ImageCache.LoadDrawableByKey | app/src/main/java/com/ipsa/ipscache/cache/ImageCache.kt:47-75 | with the key fixed: a memory hit, else the resource decode; result, tiers and steps are those of `DrawableByKeyStep` |
| ImageCacheModel.ImageCache.DecodeAndCache | app/src/main/java/com/ipsa/ipscache/cache/ImageCache.kt:52-75 | the resource decode and, on success, the memory put and disk write, as `DecodeStep` says |
| ImageCacheModel.ImageCache.LoadImage | app/src/main/java/com/ipsa/ipscache/cache/ImageCache.kt:79-111 | result, new tiers and steps taken are those of `LoadImageStep` |
| ImageCacheModel.ImageCache.LoadByKey | app/src/main/java/com/ipsa/ipscache/cache/ImageCache.kt:82-111 | with the key fixed: a memory hit, else the disk and network; result, tiers and steps are those of `LoadByKeyStep` |
| ImageCacheModel.ImageCache.LoadFromDiskOrNetwork | app/src/main/java/com/ipsa/ipscache/cache/ImageCache.kt:88-105 | after a miss: a file that decodes is put into memory and returned, otherwise the download path runs; as `DiskStep` says |
| ImageCacheModel.ImageCache.DownloadAndCache | app/src/main/java/com/ipsa/ipscache/cache/ImageCache.kt:100-105 | result, new tiers and steps taken are those of `DownloadStep` |

## Left out

- InSampleSize: the source divides and rounds in `Float`. The model uses exact rational rounding. The two agree when the bound is a power of two (1024 is the only bound used) and the dimensions are below 2^24 in magnitude. The model does not capture `Math.round` saturating at `Int.MAX_VALUE`.
- PutInMemory: the `LruCache` internals are not part of this model. Memory is a map. `put` keeps the new entry and may evict others, as chosen by the environment. The model captures no recency order, no size bound, and no refresh of recency on `get`. The Android `LruCache` also drops an entry larger than the whole capacity; the model keeps it.
- HashKeyForDisk: MD5 is an oracle from the URL string to 16 bytes. The UTF-8 encoding of the URL (`toByteArray()`) is folded into that oracle. The fallback is taken only when the digest is unavailable as a whole.
- Platform calls have no pixel semantics: `BitmapFactory` decoding (both passes), `Bitmap.compress` to PNG and `HttpURLConnection` are oracles. The model does not capture that the network code opens two separate connections beyond treating them as the `probe` and `fetch` oracles.
- The `try`/`catch` blocks of `loadImage` and `loadDrawableImage` have no exception path in the model. Every call inside them either returns null or catches its own exceptions, and those outcomes are modelled.
- LoadImageTwiceFetchesOnce: holds only for bitmaps the `LruCache` keeps. A bitmap whose size in KiB exceeds the capacity (for example a 4000 x 1000 image, which gets sample size 1 and weighs 15625 KiB at 4 bytes per pixel, against 8192 KiB for a 64 MiB heap; see `ImageCacheModel.BitmapLargerThanCapacity`) is dropped by the real `put`, and the second load then goes to disk, or to the network when the write failed.
- ImageCache.constructor: requires a positive capacity. For a heap under 8 KiB, or one whose KiB count narrows to a non-positive `Int` (as `Long.MAX_VALUE` does), `LruCache(cacheSize)` throws `IllegalArgumentException` and `getInstance` fails; that exception path is not modelled.
- Concurrency is not modelled: `withContext(Dispatchers.IO)`, the `@Volatile`/`synchronized` singleton `getInstance`, and duplicate downloads by concurrent loads.
- Logging, `Runtime.maxMemory()` (a constructor parameter here) and `mkdirs` of the cache directory are not modelled. A missing directory shows up only as a failed write.
- The UI in `MainActivity.kt` is not part of this model.
