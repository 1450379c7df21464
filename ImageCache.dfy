/** The two load paths of `ImageCache`. The memory tier is the `LruCache`
    (a map from key to bitmap); the disk tier is the set of files named by
    key in the cache directory (a map from key to file contents). Decoding,
    PNG encoding, MD5 and the network are platform calls, given as oracles. */
module ImageCacheModel {
  import opened KotlinInt
  import opened Optional
  import opened SampleSize
  import opened CacheKeys

  /** A decoded `Bitmap`; its pixels are not modelled. */
  type Bitmap

  /** The bytes of one file in the cache directory. */
  type FileBytes

  /** What a bounds-only decode reports (-1 by -1 when it fails). */
  datatype Bounds = Bounds(outHeight: Int32, outWidth: Int32)

  /** The platform as the cache sees it. The decoders answer `None` where
      `BitmapFactory` returns null. `probe` is the first connection and its
      bounds-only decode, `None` when opening it throws; `fetch` is the
      second connection decoded at the given sample size, `None` when it
      throws or does not decode. */
  datatype Platform = Platform(
    md5: Option<string -> Digest>,
    resourceBounds: Int32 -> Bounds,
    decodeResource: (Int32, int) -> Option<Bitmap>,
    decodeFile: FileBytes -> Option<Bitmap>,
    compress: Bitmap -> FileBytes,
    probe: string -> Option<Bounds>,
    fetch: (string, int) -> Option<Bitmap>)

  /** How `saveBitmapToDisk` ends: the PNG is written whole; the file cannot
      be opened, so the entry is untouched; or writing stops part-way,
      leaving the bytes that reached the file. The caller never sees which. */
  datatype WriteOutcome = Written | OpenFailed | Interrupted(partial: FileBytes)

  /** What the environment decides during one call: the entries `LruCache`
      drops to make room, and how the disk write ends. */
  datatype Happenings = Happenings(evicted: set<string>, write: WriteOutcome)

  /** The steps of one load, in the order they happen. */
  datatype Event =
    | MemoryGet(key: string)
    | DiskExists(key: string)
    | DiskDecode(key: string)
    | Download(url: string)
    | ResourceDecode(resId: Int32)
    | MemoryPut(key: string)
    | DiskWrite(key: string)

  datatype Tiers = Tiers(memory: map<string, Bitmap>, disk: map<string, FileBytes>)

  /** The result of one load, the tiers after it and the steps it took. */
  datatype Step = Step(result: Option<Bitmap>, after: Tiers, events: seq<Event>)

  /** `memoryCache.put(key, bitmap)`: the key now holds the bitmap; other
      entries stay as they were unless the cache evicts them. */
  function PutInMemory(m: map<string, Bitmap>, key: string, b: Bitmap, evicted: set<string>): (m': map<string, Bitmap>)
    ensures key in m' && m'[key] == b
    ensures forall k :: k in m' && k != key ==> k in m && k !in evicted && m'[k] == m[k]
    ensures forall k :: k in m && k != key && k !in evicted ==> k in m' && m'[k] == m[k]
  {
    (m - evicted)[key := b]
  }

  /** `saveBitmapToDisk(File(diskCacheDir, key), bitmap)`: only the file
      named `key` can change, and what it holds depends on how the write
      ends. */
  function SaveToDisk(d: map<string, FileBytes>, key: string, b: Bitmap, compress: Bitmap -> FileBytes, w: WriteOutcome)
    : (d': map<string, FileBytes>)
    ensures forall k :: k != key ==> (k in d' <==> k in d) && (k in d ==> d'[k] == d[k])
    ensures w.Written? ==> key in d' && d'[key] == compress(b)
    ensures w.Interrupted? ==> key in d' && d'[key] == w.partial
    ensures w.OpenFailed? ==> d' == d
  {
    match w
    case Written => d[key := compress(b)]
    case OpenFailed => d
    case Interrupted(partial) => d[key := partial]
  }

  predicate WithinTarget(bounds: Bounds) {
    bounds.outHeight <= TARGET_SIZE && bounds.outWidth <= TARGET_SIZE
  }

  /** `downloadImage(url)`: probe the bounds, then decode a second download
      at the sample size those bounds call for. */
  function DownloadImage(url: string, p: Platform): (r: Option<Bitmap>)
    ensures p.probe(url).None? ==> r.None?
    ensures p.probe(url).Some? && WithinTarget(p.probe(url).value) ==> r == p.fetch(url, 1)
    ensures r.Some? ==> exists s :: s >= 1 && r == p.fetch(url, s)
  {
    match p.probe(url)
    case None => None
    case Some(bounds) =>
      var s := InSampleSize(bounds.outHeight, bounds.outWidth, TARGET_SIZE, TARGET_SIZE);
      p.fetch(url, s)
  }

  /** The two `decodeResource` passes of `loadDrawableImage`. */
  function DecodeDrawable(resId: Int32, p: Platform): (r: Option<Bitmap>)
    ensures WithinTarget(p.resourceBounds(resId)) ==> r == p.decodeResource(resId, 1)
    ensures r.Some? ==> exists s :: s >= 1 && r == p.decodeResource(resId, s)
  {
    var bounds := p.resourceBounds(resId);
    var s := InSampleSize(bounds.outHeight, bounds.outWidth, TARGET_SIZE, TARGET_SIZE);
    p.decodeResource(resId, s)
  }

  /** `loadImage(url)`: memory, then the disk file, then the network. A
      disk file that does not decode falls through to the download. */
  function LoadImageStep(t: Tiers, url: string, p: Platform, h: Happenings): Step {
    LoadByKeyStep(t, url, HashKeyForDisk(url, p.md5), p, h)
  }

  /** `loadImage` once the URL's key is known. */
  function LoadByKeyStep(t: Tiers, url: string, key: string, p: Platform, h: Happenings): Step {
    if key in t.memory then
      Step(Some(t.memory[key]), t, [MemoryGet(key)])
    else
      var looked := DiskStep(t, url, key, p, h);
      Step(looked.result, looked.after, [MemoryGet(key)] + looked.events)
  }

  /** The part of `loadImage` after a memory miss: decode the file under
      `key` if there is one, and download when that yields nothing. */
  function DiskStep(t: Tiers, url: string, key: string, p: Platform, h: Happenings): Step {
    var fromDisk := if key in t.disk then p.decodeFile(t.disk[key]) else None;
    if fromDisk.Some? then
      Step(fromDisk, t.(memory := PutInMemory(t.memory, key, fromDisk.value, h.evicted)),
           [DiskExists(key), DiskDecode(key), MemoryPut(key)])
    else
      var fetched := DownloadStep(t, url, key, p, h);
      Step(fetched.result, fetched.after,
           [DiskExists(key)] + (if key in t.disk then [DiskDecode(key)] else []) + fetched.events)
  }

  /** The network tail of `loadImage`: download, and on success put the
      bitmap into memory and save it to disk under `key`. */
  function DownloadStep(t: Tiers, url: string, key: string, p: Platform, h: Happenings): Step {
    match DownloadImage(url, p)
    case None => Step(None, t, [Download(url)])
    case Some(b) =>
      Step(Some(b),
           Tiers(PutInMemory(t.memory, key, b, h.evicted), SaveToDisk(t.disk, key, b, p.compress, h.write)),
           [Download(url), MemoryPut(key), DiskWrite(key)])
  }

  /** `loadDrawableImage(resId)`: memory, then the resource itself. The disk
      tier is written but never read. */
  function LoadDrawableStep(t: Tiers, resId: Int32, p: Platform, h: Happenings): Step {
    DrawableByKeyStep(t, resId, DrawableKey(resId), p, h)
  }

  /** `loadDrawableImage` once the resource's key is known. */
  function DrawableByKeyStep(t: Tiers, resId: Int32, key: string, p: Platform, h: Happenings): Step {
    if key in t.memory then
      Step(Some(t.memory[key]), t, [MemoryGet(key)])
    else
      var decoded := DecodeStep(t, resId, key, p, h);
      Step(decoded.result, decoded.after, [MemoryGet(key)] + decoded.events)
  }

  /** The background part of `loadDrawableImage`: decode the resource, and
      on success put the bitmap into memory and save it to disk under `key`. */
  function DecodeStep(t: Tiers, resId: Int32, key: string, p: Platform, h: Happenings): Step {
    match DecodeDrawable(resId, p)
    case None => Step(None, t, [ResourceDecode(resId)])
    case Some(b) =>
      Step(Some(b),
           Tiers(PutInMemory(t.memory, key, b, h.evicted), SaveToDisk(t.disk, key, b, p.compress, h.write)),
           [ResourceDecode(resId), MemoryPut(key), DiskWrite(key)])
  }

  // ---------------------------------------------------------------------
  // The order of lookups in `loadImage`, outcome by outcome.

  predicate TouchesNetwork(events: seq<Event>) {
    exists i :: 0 <= i < |events| && events[i].Download?
  }

  predicate TouchesDisk(events: seq<Event>) {
    exists i :: 0 <= i < |events| && (events[i].DiskExists? || events[i].DiskDecode? || events[i].DiskWrite?)
  }

  /** A memory hit returns the cached bitmap and touches neither the disk
      nor the network. */
  lemma LoadImageMemoryHit(t: Tiers, url: string, p: Platform, h: Happenings)
    requires HashKeyForDisk(url, p.md5) in t.memory
    ensures var s := LoadImageStep(t, url, p, h);
      && s.result == Some(t.memory[HashKeyForDisk(url, p.md5)])
      && s.after == t
      && !TouchesDisk(s.events) && !TouchesNetwork(s.events)
  {
  }

  /** On a memory miss, a disk file that decodes is returned and put into
      memory; nothing is downloaded and the disk is unchanged. */
  lemma LoadImageDiskHit(t: Tiers, url: string, p: Platform, h: Happenings)
    requires HashKeyForDisk(url, p.md5) !in t.memory
    requires HashKeyForDisk(url, p.md5) in t.disk
    requires p.decodeFile(t.disk[HashKeyForDisk(url, p.md5)]).Some?
    ensures var key := HashKeyForDisk(url, p.md5);
      var s := LoadImageStep(t, url, p, h);
      && s.result == p.decodeFile(t.disk[key])
      && key in s.after.memory && s.after.memory[key] == s.result.value
      && s.after.disk == t.disk
      && !TouchesNetwork(s.events)
  {
    var s := LoadImageStep(t, url, p, h);
    assert forall i :: 0 <= i < |s.events| ==> !s.events[i].Download?;
  }

  /** On a memory miss, a disk file that does not decode is treated as
      absent: the image is downloaded as if the file were not there. */
  lemma LoadImageCorruptFileRefetches(t: Tiers, url: string, p: Platform, h: Happenings)
    requires HashKeyForDisk(url, p.md5) !in t.memory
    requires HashKeyForDisk(url, p.md5) in t.disk
    requires p.decodeFile(t.disk[HashKeyForDisk(url, p.md5)]).None?
    ensures var key := HashKeyForDisk(url, p.md5);
      var s := LoadImageStep(t, url, p, h);
      && s.result == DownloadImage(url, p)
      && TouchesNetwork(s.events)
      && s.result == LoadImageStep(t.(disk := t.disk - {key}), url, p, h).result
      && s.after.memory == LoadImageStep(t.(disk := t.disk - {key}), url, p, h).after.memory
  {
    var s := LoadImageStep(t, url, p, h);
    assert s.events[3] == Download(url);
  }

  /** A failed download returns null and changes neither tier. */
  lemma LoadImageDownloadFails(t: Tiers, url: string, p: Platform, h: Happenings)
    requires HashKeyForDisk(url, p.md5) !in t.memory
    requires HashKeyForDisk(url, p.md5) !in t.disk || p.decodeFile(t.disk[HashKeyForDisk(url, p.md5)]).None?
    requires DownloadImage(url, p).None?
    ensures var s := LoadImageStep(t, url, p, h);
      s.result.None? && s.after == t && TouchesNetwork(s.events)
  {
    var s := LoadImageStep(t, url, p, h);
    assert s.events[|s.events| - 1] == Download(url);
  }

  /** A successful download is put into memory and handed to the disk
      write; the bitmap is returned however that write ends. */
  lemma LoadImageDownloadSucceeds(t: Tiers, url: string, p: Platform, h: Happenings)
    requires HashKeyForDisk(url, p.md5) !in t.memory
    requires HashKeyForDisk(url, p.md5) !in t.disk || p.decodeFile(t.disk[HashKeyForDisk(url, p.md5)]).None?
    requires DownloadImage(url, p).Some?
    ensures var key := HashKeyForDisk(url, p.md5);
      var s := LoadImageStep(t, url, p, h);
      && s.result == DownloadImage(url, p)
      && key in s.after.memory && s.after.memory[key] == s.result.value
      && (h.write.Written? ==> key in s.after.disk && s.after.disk[key] == p.compress(s.result.value))
      && (h.write.OpenFailed? ==> s.after.disk == t.disk)
  {
  }

  /** Every outcome leaves the other keys' files alone, and other memory
      entries either untouched or evicted. */
  lemma LoadImageOnlyTouchesItsKey(t: Tiers, url: string, p: Platform, h: Happenings, k: string)
    requires k != HashKeyForDisk(url, p.md5)
    ensures var s := LoadImageStep(t, url, p, h);
      && (k in s.after.disk <==> k in t.disk)
      && (k in t.disk ==> s.after.disk[k] == t.disk[k])
      && (k in s.after.memory ==> k in t.memory && s.after.memory[k] == t.memory[k])
      && (k in t.memory && k !in h.evicted ==> k in s.after.memory)
  {
    var key := HashKeyForDisk(url, p.md5);
    var s := LoadImageStep(t, url, p, h);
    if key !in t.memory {
      if key in t.disk && p.decodeFile(t.disk[key]).Some? {
        assert s.after == t.(memory := PutInMemory(t.memory, key, p.decodeFile(t.disk[key]).value, h.evicted));
      } else {
        assert s.after == DownloadStep(t, url, key, p, h).after;
      }
    }
  }

  /** Once a load has produced a bitmap that memory keeps, loading the same
      URL again returns that bitmap from memory without a download. */
  lemma {:induction false} LoadImageTwiceFetchesOnce(t: Tiers, url: string, p: Platform, h1: Happenings, h2: Happenings)
    requires LoadImageStep(t, url, p, h1).result.Some?
    ensures var first := LoadImageStep(t, url, p, h1);
      var second := LoadImageStep(first.after, url, p, h2);
      && second.result == first.result
      && second.after == first.after
      && !TouchesNetwork(second.events)
  {
    var first := LoadImageStep(t, url, p, h1);
    var key := HashKeyForDisk(url, p.md5);
    assert key in first.after.memory && first.after.memory[key] == first.result.value by {
      if key !in t.memory {
        if key in t.disk && p.decodeFile(t.disk[key]).Some? {
          LoadImageDiskHit(t, url, p, h1);
        } else {
          LoadImageDownloadSucceeds(t, url, p, h1);
        }
      }
    }
    LoadImageMemoryHit(first.after, url, p, h2);
  }

  /** The memory tier can be too small for one bitmap: a 4000 x 1000 image
      is decoded at full size, and at 4 bytes per pixel it outweighs the
      whole capacity a 64 MiB heap gives. */
  lemma BitmapLargerThanCapacity()
    ensures InSampleSize(1000, 4000, TARGET_SIZE, TARGET_SIZE) == 1
    ensures SizeOfKb(4000 * 1000 * 4) > CacheSizeKb(64 * 1024 * 1024) > 0
  {
    CacheSizeIsEighthOfHeap(64 * 1024 * 1024);
  }

  /** From cold to warm: after a download whose file was written whole and
      re-decodes, a load that finds memory cleared is served from the disk
      file, with no new download. */
  lemma {:induction false} LoadImageWarmFromDisk(t: Tiers, url: string, p: Platform, h1: Happenings, h2: Happenings)
    requires HashKeyForDisk(url, p.md5) !in t.memory
    requires HashKeyForDisk(url, p.md5) !in t.disk
    requires DownloadImage(url, p).Some?
    requires h1.write.Written?
    requires p.decodeFile(p.compress(DownloadImage(url, p).value)).Some?
    ensures var first := LoadImageStep(t, url, p, h1);
      var second := LoadImageStep(first.after.(memory := map[]), url, p, h2);
      && TouchesNetwork(first.events)
      && second.result == p.decodeFile(p.compress(first.result.value))
      && !TouchesNetwork(second.events)
  {
    var first := LoadImageStep(t, url, p, h1);
    var key := HashKeyForDisk(url, p.md5);
    LoadImageDownloadSucceeds(t, url, p, h1);
    assert first.events[2] == Download(url);
    LoadImageDiskHit(first.after.(memory := map[]), url, p, h2);
  }

  /** A file left half-written by an interrupted save that does not decode
      sends the next cold load back to the network. */
  lemma {:induction false} LoadImageAfterInterruptedWrite(t: Tiers, url: string, p: Platform, h1: Happenings, h2: Happenings)
    requires HashKeyForDisk(url, p.md5) !in t.memory
    requires HashKeyForDisk(url, p.md5) !in t.disk
    requires DownloadImage(url, p).Some?
    requires h1.write.Interrupted? && p.decodeFile(h1.write.partial).None?
    ensures var first := LoadImageStep(t, url, p, h1);
      var second := LoadImageStep(first.after.(memory := map[]), url, p, h2);
      && second.result == DownloadImage(url, p)
      && TouchesNetwork(second.events)
  {
    var first := LoadImageStep(t, url, p, h1);
    LoadImageDownloadSucceeds(t, url, p, h1);
    LoadImageCorruptFileRefetches(first.after.(memory := map[]), url, p, h2);
  }

  // ---------------------------------------------------------------------
  // `loadDrawableImage`.

  /** A memory hit returns the cached bitmap and decodes nothing. */
  lemma LoadDrawableMemoryHit(t: Tiers, resId: Int32, p: Platform, h: Happenings)
    requires DrawableKey(resId) in t.memory
    ensures var s := LoadDrawableStep(t, resId, p, h);
      s.result == Some(t.memory[DrawableKey(resId)]) && s.after == t && s.events == [MemoryGet(DrawableKey(resId))]
  {
  }

  /** The disk tier is never read: the result does not depend on what the
      cache directory holds, and no step looks at it. */
  lemma LoadDrawableNeverReadsDisk(t: Tiers, resId: Int32, p: Platform, h: Happenings, files: map<string, FileBytes>)
    ensures var s := LoadDrawableStep(t, resId, p, h);
      && s.result == LoadDrawableStep(t.(disk := files), resId, p, h).result
      && forall i :: 0 <= i < |s.events| ==> !s.events[i].DiskExists? && !s.events[i].DiskDecode?
  {
    var key := DrawableKey(resId);
    var s := LoadDrawableStep(t, resId, p, h);
    if key !in t.memory {
      var decoded := DecodeStep(t, resId, key, p, h);
      assert s.events == [MemoryGet(key)] + decoded.events;
      assert decoded.events == [ResourceDecode(resId)] || decoded.events == [ResourceDecode(resId), MemoryPut(key), DiskWrite(key)];
    }
  }

  /** On a memory miss the resource is decoded; success populates memory and
      goes to the disk write, failure changes nothing. */
  lemma LoadDrawableDecodes(t: Tiers, resId: Int32, p: Platform, h: Happenings)
    requires DrawableKey(resId) !in t.memory
    ensures var key := DrawableKey(resId);
      var s := LoadDrawableStep(t, resId, p, h);
      && s.result == DecodeDrawable(resId, p)
      && (s.result.None? ==> s.after == t)
      && (s.result.Some? ==> key in s.after.memory && s.after.memory[key] == s.result.value)
      && (s.result.Some? && h.write.Written? ==> key in s.after.disk && s.after.disk[key] == p.compress(s.result.value))
  {
  }

  /** Because the disk is never read, a drawable whose file was written
      whole is still decoded again from the resource once memory is
      cleared. */
  lemma {:induction false} LoadDrawableIgnoresWarmDisk(t: Tiers, resId: Int32, p: Platform, h1: Happenings, h2: Happenings)
    requires DrawableKey(resId) !in t.memory
    requires DecodeDrawable(resId, p).Some?
    requires h1.write.Written?
    ensures var first := LoadDrawableStep(t, resId, p, h1);
      var second := LoadDrawableStep(first.after.(memory := map[]), resId, p, h2);
      && DrawableKey(resId) in first.after.disk
      && ResourceDecode(resId) in second.events
  {
    LoadDrawableDecodes(t, resId, p, h1);
  }

  /** The mutable cache object. `memory` stands for the `LruCache` entries,
      `disk` for the files under the cache directory, `trace` records the
      steps the loads took. */
  class ImageCache {
    const capacityKb: Int32
    var memory: map<string, Bitmap>
    var disk: map<string, FileBytes>
    ghost var trace: seq<Event>

    function State(): Tiers
      reads this
    {
      Tiers(memory, disk)
    }

    /** The private constructor: an empty `LruCache` sized from the heap, and
        whatever files the cache directory already holds. `LruCache` refuses a
        capacity that is not positive, so construction needs one. */
    constructor (maxMemory: Int64, files: map<string, FileBytes>)
      requires CacheSizeKb(maxMemory) > 0
      ensures capacityKb == CacheSizeKb(maxMemory)
      ensures memory == map[] && disk == files && trace == []
    {
      capacityKb := CacheSizeKb(maxMemory);
      memory := map[];
      disk := files;
      trace := [];
    }

    method Put(key: string, b: Bitmap, evicted: set<string>)
      modifies this
      ensures memory == PutInMemory(old(memory), key, b, evicted)
      ensures disk == old(disk) && trace == old(trace) + [MemoryPut(key)]
    {
      memory := (memory - evicted)[key := b];
      trace := trace + [MemoryPut(key)];
    }

    method SaveBitmapToDisk(key: string, b: Bitmap, compress: Bitmap -> FileBytes, w: WriteOutcome)
      modifies this
      ensures disk == SaveToDisk(old(disk), key, b, compress, w)
      ensures memory == old(memory) && trace == old(trace) + [DiskWrite(key)]
    {
      match w {
        case Written => disk := disk[key := compress(b)];
        case OpenFailed =>
        case Interrupted(partial) => disk := disk[key := partial];
      }
      trace := trace + [DiskWrite(key)];
    }

    method LoadDrawableImage(resId: Int32, p: Platform, h: Happenings) returns (r: Option<Bitmap>)
      modifies this
      ensures var s := LoadDrawableStep(old(State()), resId, p, h);
        r == s.result && State() == s.after && trace == old(trace) + s.events
    {
      var key := DrawableKey(resId);
      r := LoadDrawableByKey(resId, key, p, h);
    }

    /** Lines 47-75 of `loadDrawableImage`, with the key already computed. */
    method LoadDrawableByKey(resId: Int32, key: string, p: Platform, h: Happenings) returns (r: Option<Bitmap>)
      modifies this
      ensures var s := DrawableByKeyStep(old(State()), resId, key, p, h);
        r == s.result && State() == s.after && trace == old(trace) + s.events
    {
      ghost var before := State();
      trace := trace + [MemoryGet(key)];
      if key in memory {
        return Some(memory[key]);
      }
      r := DecodeAndCache(resId, key, p, h);
      ghost var decoded := DecodeStep(before, resId, key, p, h);
      assert DrawableByKeyStep(before, resId, key, p, h) == Step(decoded.result, decoded.after, [MemoryGet(key)] + decoded.events);
    }

    /** Lines 52-75 of `loadDrawableImage`. */
    method DecodeAndCache(resId: Int32, key: string, p: Platform, h: Happenings) returns (r: Option<Bitmap>)
      modifies this
      ensures var s := DecodeStep(old(State()), resId, key, p, h);
        r == s.result && State() == s.after && trace == old(trace) + s.events
    {
      trace := trace + [ResourceDecode(resId)];
      r := DecodeDrawable(resId, p);
      if r.Some? {
        Put(key, r.value, h.evicted);
        SaveBitmapToDisk(key, r.value, p.compress, h.write);
      }
    }

    method LoadImage(url: string, p: Platform, h: Happenings) returns (r: Option<Bitmap>)
      modifies this
      ensures var s := LoadImageStep(old(State()), url, p, h);
        r == s.result && State() == s.after && trace == old(trace) + s.events
    {
      var key := HashKeyForDisk(url, p.md5);
      r := LoadByKey(url, key, p, h);
    }

    /** Lines 80-111 of `loadImage`, with the key already computed. */
    method LoadByKey(url: string, key: string, p: Platform, h: Happenings) returns (r: Option<Bitmap>)
      modifies this
      ensures var s := LoadByKeyStep(old(State()), url, key, p, h);
        r == s.result && State() == s.after && trace == old(trace) + s.events
    {
      ghost var before := State();
      trace := trace + [MemoryGet(key)];
      if key in memory {
        return Some(memory[key]);
      }
      r := LoadFromDiskOrNetwork(url, key, p, h);
      ghost var looked := DiskStep(before, url, key, p, h);
      assert LoadByKeyStep(before, url, key, p, h) == Step(looked.result, looked.after, [MemoryGet(key)] + looked.events);
    }

    /** Lines 88-105 of `loadImage`, after the memory miss. */
    method LoadFromDiskOrNetwork(url: string, key: string, p: Platform, h: Happenings) returns (r: Option<Bitmap>)
      modifies this
      ensures var s := DiskStep(old(State()), url, key, p, h);
        r == s.result && State() == s.after && trace == old(trace) + s.events
    {
      trace := trace + [DiskExists(key)];
      if key in disk {
        trace := trace + [DiskDecode(key)];
        r := p.decodeFile(disk[key]);
        if r.Some? {
          Put(key, r.value, h.evicted);
          return;
        }
      }
      r := DownloadAndCache(url, key, p, h);
    }

    /** Lines 100-105 of `loadImage`. */
    method DownloadAndCache(url: string, key: string, p: Platform, h: Happenings) returns (r: Option<Bitmap>)
      modifies this
      ensures var s := DownloadStep(old(State()), url, key, p, h);
        r == s.result && State() == s.after && trace == old(trace) + s.events
    {
      trace := trace + [Download(url)];
      r := DownloadImage(url, p);
      if r.Some? {
        Put(key, r.value, h.evicted);
        SaveBitmapToDisk(key, r.value, p.compress, h.write);
      }
    }
  }
}
