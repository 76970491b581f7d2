/** The two-tier result cache (src/cache.rs): a stat check, then a content
    hash, over an in-memory map that is loaded from and flushed to one index
    file. */
module Cache {
  import opened Basics
  import opened Diagnostics

  // ------------------------------------------------------------ diagnostics

  /** A diagnostic without its path and corrected mark. */
  datatype CachedDiagnostic = CachedDiagnostic(
    line: nat, column: nat, severity: char, cop: string, message: string)

  function Letter(s: Severity): char {
    match s
    case Convention => 'C'
    case Warning => 'W'
    case Error => 'E'
    case Fatal => 'F'
  }

  function FromDiagnostic(d: Diagnostic): CachedDiagnostic {
    CachedDiagnostic(d.line, d.column, Letter(d.severity), d.copName, d.message)
  }

  function ToDiagnostic(c: CachedDiagnostic, path: string): Diagnostic {
    var severity :=
      match c.severity
      case 'W' => Warning
      case 'E' => Error
      case 'F' => Fatal
      case _ => Convention;
    Diagnostic(path, c.line, c.column, severity, c.cop, c.message, false)
  }

  function Pack(ds: seq<Diagnostic>): seq<CachedDiagnostic> {
    seq(|ds|, i requires 0 <= i < |ds| => FromDiagnostic(ds[i]))
  }

  function Unpack(cs: seq<CachedDiagnostic>, path: string): seq<Diagnostic> {
    seq(|cs|, i requires 0 <= i < |cs| => ToDiagnostic(cs[i], path))
  }

  /** What the round trip through the cache preserves. */
  ghost predicate Storable(ds: seq<Diagnostic>, path: string) {
    forall d :: d in ds ==> d.path == path && !d.corrected
  }

  /** Storing and restoring loses exactly the path (implied by the key) and the
      corrected mark. */
  lemma PackRoundTrip(ds: seq<Diagnostic>, path: string)
    ensures Unpack(Pack(ds), path) == ds <==> Storable(ds, path)
  {
    var back := Unpack(Pack(ds), path);
    forall i | 0 <= i < |ds|
      ensures back[i] == ds[i].(path := path, corrected := false)
    {}
    if back == ds {
      forall d | d in ds
        ensures d.path == path && !d.corrected
      {
        var i :| 0 <= i < |ds| && ds[i] == d;
        assert back[i] == ds[i];
      }
    }
  }

  // ------------------------------------------------------------ file stamps

  /** What `metadata` yields: the modification time, in nanoseconds since the
      epoch where the platform has one, and the length. */
  datatype Meta = Meta(modified: Option<int>, len: nat)

  datatype Stamp = Stamp(secs: nat, nanos: nat, size: nat)

  /** Times before the epoch, and missing times, become (0, 0). */
  function TimeParts(time: Option<int>): (nat, nat) {
    match time
    case Some(t) => if t >= 0 then (t / 1_000_000_000, t % 1_000_000_000) else (0, 0)
    case None => (0, 0)
  }

  function StampOf(meta: Option<Meta>, contentLength: nat): Stamp {
    match meta
    case Some(m) => Stamp(TimeParts(m.modified).0, TimeParts(m.modified).1, m.len)
    case None => Stamp(0, 0, contentLength)
  }

  /** The time as far as a stamp can tell: nothing before the epoch, and a missing
      time is the epoch. */
  function Seen(time: Option<int>): int {
    if time.Some? && time.value > 0 then time.value else 0
  }

  /** Two files have the same stamp exactly when they have the same length and the
      same time down to the nanosecond, all times up to the epoch and missing ones
      being alike. */
  lemma StampTells(m: Meta, n: Meta, a: nat, b: nat)
    ensures StampOf(Some(m), a) == StampOf(Some(n), b) <==> m.len == n.len && Seen(m.modified) == Seen(n.modified)
    ensures StampOf(None, a) == StampOf(Some(n), b) <==> n.len == a && Seen(n.modified) == 0
  {
    PartsTell(m.modified);
    PartsTell(n.modified);
  }

  lemma PartsTell(time: Option<int>)
    ensures TimeParts(time).0 * 1_000_000_000 + TimeParts(time).1 == Seen(time)
    ensures TimeParts(time).1 < 1_000_000_000
  {
  }

  // ---------------------------------------------------------------- entries

  datatype Entry = Entry(stamp: Stamp, contentHash: string, diagnostics: seq<CachedDiagnostic>)

  type Entries = map<string, Entry>

  datatype Lookup = StatHit(found: seq<Diagnostic>) | ContentHit(found: seq<Diagnostic>) | Miss

  function LookupByStat(entries: Entries, key: string, path: string, meta: Option<Meta>): Lookup {
    if meta.None? || key !in entries then Miss
    else if entries[key].stamp == StampOf(meta, 0) then StatHit(Unpack(entries[key].diagnostics, path))
    else Miss
  }

  /** The half of the content lookup done under the read lock. */
  predicate ContentMatches(entries: Entries, key: string, contentHash: string) {
    key in entries && entries[key].contentHash == contentHash
  }

  /** The half done under the write lock. */
  function Refresh(entries: Entries, key: string, path: string, stamp: Stamp): (Lookup, Entries) {
    if key !in entries then (Miss, entries)
    else (ContentHit(Unpack(entries[key].diagnostics, path)),
          entries[key := entries[key].(stamp := stamp)])
  }

  function Stored(entries: Entries, key: string, stamp: Stamp, contentHash: string,
                  diagnostics: seq<Diagnostic>): Entries
  {
    entries[key := Entry(stamp, contentHash, Pack(diagnostics))]
  }

  // -------------------------------------------------------------- the class

  /** What a file holds: an index, or bytes that are none. */
  datatype Contents = Whole(entries: Entries) | Torn

  /** The index file and the temporary file beside it. */
  class IndexFile {
    var stored: Option<Contents>
    var temp: Option<Contents>

    constructor ()
      ensures stored == None && temp == None
    {
      stored, temp := None, None;
    }
  }

  /** Only the index file is read; absent or unreadable contents are an empty
      map. */
  function LoadIndex(stored: Option<Contents>): Entries {
    match stored
    case Some(Whole(e)) => e
    case _ => map[]
  }

  /** How far a flush gets: the temporary file cannot be opened; it is left half
      written; it is written and then the rename fails or the process dies; it is
      renamed over the index. */
  datatype Fate = NotOpened | HalfWritten | NotRenamed | Renamed

  class ResultCache {
    const enabled: bool
    const pathHash: string -> string
    const contentHash: Bytes -> string
    var entries: Entries
    var dirty: bool

    constructor (index: IndexFile, pathHash: string -> string, contentHash: Bytes -> string)
      ensures enabled && !dirty && entries == LoadIndex(index.stored)
      ensures this.pathHash == pathHash && this.contentHash == contentHash
    {
      enabled := true;
      this.pathHash := pathHash;
      this.contentHash := contentHash;
      entries := LoadIndex(index.stored);
      dirty := false;
    }

    constructor Disabled()
      ensures !enabled && !dirty && entries == map[]
    {
      enabled := false;
      pathHash := p => p;
      contentHash := b => "";
      entries := map[];
      dirty := false;
    }

    method GetByStat(path: string, meta: Option<Meta>) returns (r: Lookup)
      ensures r == if enabled then LookupByStat(entries, pathHash(path), path, meta) else Miss
    {
      if !enabled || meta == None {
        return Miss;
      }
      var key := pathHash(path);
      if key !in entries {
        return Miss;
      }
      var entry := entries[key];
      var (secs, nanos) := TimeParts(meta.value.modified);
      var size := meta.value.len;
      if entry.stamp.secs == secs && entry.stamp.nanos == nanos && entry.stamp.size == size {
        r := StatHit(Unpack(entry.diagnostics, path));
      } else {
        r := Miss;
      }
    }

    /** Both halves of the content lookup, with nothing in between. */
    method GetByContent(path: string, content: Bytes, meta: Option<Meta>) returns (r: Lookup)
      modifies this`entries, this`dirty
      ensures var hit := enabled && ContentMatches(old(entries), pathHash(path), contentHash(content));
              var after := Refresh(old(entries), pathHash(path), path, StampOf(meta, |content|));
              && r == (if hit then after.0 else Miss)
              && entries == (if hit then after.1 else old(entries))
              && dirty == (old(dirty) || hit)
    {
      if !enabled {
        return Miss;
      }
      var key := pathHash(path);
      var hash := contentHash(content);
      if key !in entries || entries[key].contentHash != hash {
        return Miss;
      }
      var entry := entries[key];
      r := ContentHit(Unpack(entry.diagnostics, path));
      entries := entries[key := entry.(stamp := StampOf(meta, |content|))];
      dirty := true;
    }

    method Put(path: string, content: Bytes, meta: Option<Meta>, diagnostics: seq<Diagnostic>)
      modifies this`entries, this`dirty
      ensures entries == if enabled then
                           Stored(old(entries), pathHash(path), StampOf(meta, |content|), contentHash(content), diagnostics)
                         else old(entries)
      ensures dirty == (old(dirty) || enabled)
    {
      if !enabled {
        return;
      }
      var entry := Entry(StampOf(meta, |content|), contentHash(content), Pack(diagnostics));
      entries := entries[pathHash(path) := entry];
      dirty := true;
    }

    /** Write a temporary file, then rename it over the index. However far that
        gets, the index loads as it did before or as the map; it is never torn, even
        if a torn temporary file is left behind. */
    method Flush(index: IndexFile, fate: Fate)
      modifies index
      ensures var wrote := enabled && dirty && fate == Renamed;
              && index.stored == (if wrote then Some(Whole(entries)) else old(index.stored))
              && LoadIndex(index.stored) == (if wrote then entries else LoadIndex(old(index.stored)))
      ensures old(index.stored) != Some(Torn) ==> index.stored != Some(Torn)
      ensures index.temp ==
              if !enabled || !dirty || fate == NotOpened then old(index.temp)
              else if fate == Renamed then None
              else if fate == HalfWritten then Some(Torn)
              else Some(Whole(entries))
    {
      if !enabled || !dirty {
        return;
      }
      var json := entries;
      if fate == NotOpened {
        return;
      }
      index.temp := Some(Torn);
      if fate == HalfWritten {
        return;
      }
      index.temp := Some(Whole(json));
      if fate == Renamed {
        index.stored, index.temp := index.temp, None;
      }
    }
  }

  // -------------------------------------------------- what an operation does

  /** A stored result is found again by the same content, whatever the stamp
      has become, and from then on by the refreshed stamp. */
  lemma PutThenLookups(entries: Entries, key: string, path: string, hash: string,
                       first: Stamp, meta: Meta, ds: seq<Diagnostic>)
    requires Storable(ds, path)
    ensures var e := Stored(entries, key, first, hash, ds);
            var refreshed := Refresh(e, key, path, StampOf(Some(meta), 0));
            && ContentMatches(e, key, hash)
            && refreshed.0 == ContentHit(ds)
            && LookupByStat(refreshed.1, key, path, Some(meta)) == StatHit(ds)
            && (LookupByStat(e, key, path, Some(meta)) == StatHit(ds) <==> first == StampOf(Some(meta), 0))
  {
    PackRoundTrip(ds, path);
  }
}
