/** Capture of the referenced object bytes, restore into another store, and verification.
    `sha` is the content hash, `nameOf` the archive file name of a key, `etagOf` the ETag of stored content. */
module Backup {
  import opened Basics
  import opened Ordering
  import opened Census

  type Bytes = seq<bv8>
  type Store = map<string, Bytes>

  /** What is assumed of SHA-256 in hexadecimal: no collisions, and text that normalization leaves alone. */
  ghost predicate GoodHash(sha: Bytes -> string) {
    && (forall x, y :: sha(x) == sha(y) ==> x == y)
    && (forall x :: sha(x) != "" && Lower(Strip(sha(x))) == sha(x))
  }

  ghost predicate GoodNames(nameOf: string -> string) {
    && (forall k, l :: nameOf(k) == nameOf(l) ==> k == l)
    && (forall k :: nameOf(k) != "" && Strip(nameOf(k)) == nameOf(k))
  }

  datatype Entry = Entry(key: string, contentSha: string, size: Option<nat>, etag: Option<string>, archiveFile: string)

  datatype CaptureError = NotFetched(key: string) | CaptureHashMismatch(key: string) | CaptureSizeMismatch(key: string)

  datatype Failure =
    | InvalidManifestEntry | ArchiveMissing(key: string) | ArchiveHashMismatch(key: string) | PutFailed(key: string)
    | Missing(key: string) | HashMismatch(key: string) | SizeMismatch(key: string)
    | EtagMissingInManifest(key: string) | EtagMissing(key: string) | EtagMismatch(key: string)

  // ------------------------------------------------------------------------ ETags

  /** str.strip('"') */
  function Unquoted(s: string): string {
    if s != "" && s[0] == '"' then Unquoted(s[1..])
    else if s != "" && s[|s| - 1] == '"' then Unquoted(s[..|s| - 1])
    else s
  }

  function NormalizeEtag(raw: Option<string>): Option<string> {
    if raw.None? || Unquoted(Strip(raw.value)) == "" then None else Some(Unquoted(Strip(raw.value)))
  }

  /** Text with no blank at either end. */
  predicate NoEdgeBlank(t: string) {
    t != "" && !IsSpace(t[0]) && !IsSpace(t[|t| - 1])
  }

  /** An ETag that, trimmed and unquoted, is not empty and has no blank at either end. */
  predicate PlainEtag(raw: Option<string>) {
    raw.Some? && NoEdgeBlank(Unquoted(Strip(raw.value)))
  }

  // ---------------------------------------------------------------------- capture

  /** The object is there and is what its reference says. */
  function CaptureErrorOf(ref: Ref, store: Store, sha: Bytes -> string): Option<CaptureError> {
    if ref.key !in store then Some(NotFetched(ref.key))
    else if sha(store[ref.key]) != ref.sha then Some(CaptureHashMismatch(ref.key))
    else if ref.size.Some? && |store[ref.key]| != ref.size.value then Some(CaptureSizeMismatch(ref.key))
    else None
  }

  predicate Capturable(refs: seq<Ref>, store: Store, sha: Bytes -> string) {
    forall i :: 0 <= i < |refs| ==> CaptureErrorOf(refs[i], store, sha).None?
  }

  function EntryFor(key: string, data: Bytes, sha: Bytes -> string, nameOf: string -> string, etagOf: Bytes -> Option<string>): Entry {
    Entry(key, sha(data), Some(|data|), NormalizeEtag(etagOf(data)), nameOf(key))
  }

  function EntriesFor(refs: seq<Ref>, store: Store, sha: Bytes -> string, nameOf: string -> string, etagOf: Bytes -> Option<string>): (entries: seq<Entry>)
    requires Capturable(refs, store, sha)
    ensures |entries| == |refs|
    ensures forall i :: 0 <= i < |refs| ==> entries[i] == EntryFor(refs[i].key, store[refs[i].key], sha, nameOf, etagOf)
  {
    if refs == [] then []
    else
      var front := refs[..|refs| - 1]; var last := refs[|refs| - 1];
      assert CaptureErrorOf(last, store, sha).None?;
      EntriesFor(front, store, sha, nameOf, etagOf) + [EntryFor(last.key, store[last.key], sha, nameOf, etagOf)]
  }

  /** The archive with the bytes of these references written, each under its key's file name. */
  function ArchiveWith(archive: Store, refs: seq<Ref>, store: Store, nameOf: string -> string): Store {
    if refs == [] then archive
    else
      var before := ArchiveWith(archive, refs[..|refs| - 1], store, nameOf);
      var key := refs[|refs| - 1].key;
      if key in store then before[nameOf(key) := store[key]] else before
  }

  function EntryKey(): Entry -> string { (e: Entry) => e.key }

  /** The loop body of capture_object_bytes: fetch, check hash and size, write the archive file. */
  method CaptureOne(ref: Ref, before: Store, store: Store, sha: Bytes -> string, nameOf: string -> string, etagOf: Bytes -> Option<string>)
    returns (r: Result<Entry, CaptureError>, archive: Store)
    ensures var error := CaptureErrorOf(ref, store, sha);
      if error.Some? then r == Failure(error.value) && archive == before
      else r == Success(EntryFor(ref.key, store[ref.key], sha, nameOf, etagOf)) && archive == before[nameOf(ref.key) := store[ref.key]]
  {
    archive := before;
    if ref.key !in store {
      return Failure(NotFetched(ref.key)), archive;
    }
    var data := store[ref.key];
    var digest := sha(data);
    if digest != ref.sha {
      return Failure(CaptureHashMismatch(ref.key)), archive;
    }
    if ref.size.Some? && |data| != ref.size.value {
      return Failure(CaptureSizeMismatch(ref.key)), archive;
    }
    var filename := nameOf(ref.key);
    archive := archive[filename := data];
    return Success(Entry(ref.key, digest, Some(|data|), NormalizeEtag(etagOf(data)), filename)), archive;
  }

  lemma CaptureNext(refs: seq<Ref>, i: nat, archive: Store, store: Store, sha: Bytes -> string, nameOf: string -> string, etagOf: Bytes -> Option<string>)
    requires i < |refs| && Capturable(refs[..i], store, sha) && CaptureErrorOf(refs[i], store, sha).None?
    ensures Capturable(refs[..i + 1], store, sha)
    ensures EntriesFor(refs[..i + 1], store, sha, nameOf, etagOf) ==
            EntriesFor(refs[..i], store, sha, nameOf, etagOf) + [EntryFor(refs[i].key, store[refs[i].key], sha, nameOf, etagOf)]
    ensures ArchiveWith(archive, refs[..i + 1], store, nameOf) ==
            ArchiveWith(archive, refs[..i], store, nameOf)[nameOf(refs[i].key) := store[refs[i].key]]
  {
    assert refs[..i + 1][..i] == refs[..i];
  }

  /** capture_object_bytes: stops at the first reference that cannot be captured. */
  method CaptureObjectBytes(refs: seq<Ref>, before: Store, store: Store,
                            sha: Bytes -> string, nameOf: string -> string, etagOf: Bytes -> Option<string>)
    returns (r: Result<seq<Entry>, CaptureError>, archive: Store)
    ensures r.Success? <==> Capturable(refs, store, sha)
    ensures r.Success? ==> r.value == SortBy(EntriesFor(refs, store, sha, nameOf, etagOf), EntryKey())
    ensures r.Success? ==> archive == ArchiveWith(before, refs, store, nameOf)
    ensures r.Failure? ==> exists i :: 0 <= i < |refs| && CaptureErrorOf(refs[i], store, sha) == Some(r.error) && Capturable(refs[..i], store, sha)
  {
    archive := before;
    var entries: seq<Entry> := [];
    for i := 0 to |refs|
      invariant Capturable(refs[..i], store, sha)
      invariant entries == EntriesFor(refs[..i], store, sha, nameOf, etagOf)
      invariant archive == ArchiveWith(before, refs[..i], store, nameOf)
    {
      var captured;
      captured, archive := CaptureOne(refs[i], archive, store, sha, nameOf, etagOf);
      if captured.Failure? {
        return Failure(captured.error), archive;
      }
      CaptureNext(refs, i, before, store, sha, nameOf, etagOf);
      entries := entries + [captured.value];
    }
    assert refs[..|refs|] == refs;
    return Success(SortBy(entries, EntryKey())), archive;
  }

  // ---------------------------------------------------------------------- restore

  /** What restoring one entry puts under its key; `refused` are the keys whose put raises. */
  function RestoreFailure(e: Entry, archive: Store, sha: Bytes -> string, refused: set<string>): Option<Failure> {
    var key, file, expected := Strip(e.key), Strip(e.archiveFile), Lower(Strip(e.contentSha));
    if key == "" || file == "" then Some(InvalidManifestEntry)
    else if file !in archive then Some(ArchiveMissing(key))
    else if expected != "" && sha(archive[file]) != expected then Some(ArchiveHashMismatch(key))
    else if key in refused then Some(PutFailed(key))
    else None
  }

  function RestoreFailures(entries: seq<Entry>, archive: Store, sha: Bytes -> string, refused: set<string>): seq<Failure> {
    if entries == [] then []
    else
      var f := RestoreFailure(entries[|entries| - 1], archive, sha, refused);
      RestoreFailures(entries[..|entries| - 1], archive, sha, refused) + (if f.Some? then [f.value] else [])
  }

  function RestoredStore(target: Store, entries: seq<Entry>, archive: Store, sha: Bytes -> string, refused: set<string>): Store {
    if entries == [] then target
    else
      var e := entries[|entries| - 1];
      var before := RestoredStore(target, entries[..|entries| - 1], archive, sha, refused);
      if RestoreFailure(e, archive, sha, refused).None? then before[Strip(e.key) := archive[Strip(e.archiveFile)]] else before
  }

  /** restore_objects_from_archive */
  method RestoreObjects(entries: seq<Entry>, archive: Store, into: Store, sha: Bytes -> string, refused: set<string>)
    returns (failures: seq<Failure>, target: Store)
    ensures failures == RestoreFailures(entries, archive, sha, refused)
    ensures target == RestoredStore(into, entries, archive, sha, refused)
  {
    failures, target := [], into;
    for i := 0 to |entries|
      invariant failures == RestoreFailures(entries[..i], archive, sha, refused)
      invariant target == RestoredStore(into, entries[..i], archive, sha, refused)
    {
      assert entries[..i + 1][..i] == entries[..i];
      var e := entries[i];
      var key, file, expected := Strip(e.key), Strip(e.archiveFile), Lower(Strip(e.contentSha));
      if key == "" || file == "" {
        failures := failures + [InvalidManifestEntry];
        continue;
      }
      if file !in archive {
        failures := failures + [ArchiveMissing(key)];
        continue;
      }
      if expected != "" && sha(archive[file]) != expected {
        failures := failures + [ArchiveHashMismatch(key)];
        continue;
      }
      if key in refused {
        failures := failures + [PutFailed(key)];
      } else {
        target := target[key := archive[file]];
      }
    }
    assert entries[..|entries|] == entries;
  }

  // ----------------------------------------------------------------------- verify

  function EtagFailures(e: Entry, key: string, data: Bytes, etagOf: Bytes -> Option<string>): seq<Failure> {
    var expected, actual := NormalizeEtag(e.etag), NormalizeEtag(etagOf(data));
    if expected.None? then [EtagMissingInManifest(key)]
    else if actual.None? then [EtagMissing(key)]
    else if actual != expected then [EtagMismatch(key)]
    else []
  }

  function VerifyEntry(e: Entry, store: Store, sha: Bytes -> string, etagOf: Bytes -> Option<string>, requireEtag: bool): seq<Failure> {
    var key, expected := Strip(e.key), Lower(Strip(e.contentSha));
    if key == "" || expected == "" then [InvalidManifestEntry]
    else if key !in store then [Missing(key)]
    else
      var data := store[key];
      (if sha(data) != expected then [HashMismatch(key)] else [])
      + (if e.size.Some? && |data| != e.size.value then [SizeMismatch(key)] else [])
      + (if requireEtag then EtagFailures(e, key, data, etagOf) else [])
  }

  function VerifyFailures(entries: seq<Entry>, store: Store, sha: Bytes -> string, etagOf: Bytes -> Option<string>, requireEtag: bool): seq<Failure> {
    if entries == [] then []
    else
      VerifyFailures(entries[..|entries| - 1], store, sha, etagOf, requireEtag)
      + VerifyEntry(entries[|entries| - 1], store, sha, etagOf, requireEtag)
  }

  /** The loop body of verify_restored_objects. */
  method VerifyOne(e: Entry, store: Store, sha: Bytes -> string, etagOf: Bytes -> Option<string>, requireEtag: bool)
    returns (failures: seq<Failure>)
    ensures failures == VerifyEntry(e, store, sha, etagOf, requireEtag)
  {
    failures := [];
    var key, expected := Strip(e.key), Lower(Strip(e.contentSha));
    if key == "" || expected == "" {
      return [InvalidManifestEntry];
    }
    if key !in store {
      return [Missing(key)];
    }
    var data := store[key];
    if sha(data) != expected {
      failures := failures + [HashMismatch(key)];
    }
    if e.size.Some? && |data| != e.size.value {
      failures := failures + [SizeMismatch(key)];
    }
    if requireEtag {
      var expectedEtag, actualEtag := NormalizeEtag(e.etag), NormalizeEtag(etagOf(data));
      if expectedEtag.None? {
        failures := failures + [EtagMissingInManifest(key)];
      } else if actualEtag.None? {
        failures := failures + [EtagMissing(key)];
      } else if actualEtag != expectedEtag {
        failures := failures + [EtagMismatch(key)];
      }
    }
  }

  lemma VerifyNext(entries: seq<Entry>, i: nat, store: Store, sha: Bytes -> string, etagOf: Bytes -> Option<string>, requireEtag: bool)
    requires i < |entries|
    ensures VerifyFailures(entries[..i + 1], store, sha, etagOf, requireEtag) ==
            VerifyFailures(entries[..i], store, sha, etagOf, requireEtag) + VerifyEntry(entries[i], store, sha, etagOf, requireEtag)
  {
    assert entries[..i + 1][..i] == entries[..i];
  }

  /** verify_restored_objects, with ETags available from the store. */
  method VerifyRestoredObjects(entries: seq<Entry>, store: Store, sha: Bytes -> string, etagOf: Bytes -> Option<string>, requireEtag: bool)
    returns (failures: seq<Failure>)
    ensures failures == VerifyFailures(entries, store, sha, etagOf, requireEtag)
  {
    failures := [];
    for i := 0 to |entries|
      invariant failures == VerifyFailures(entries[..i], store, sha, etagOf, requireEtag)
    {
      var found := VerifyOne(entries[i], store, sha, etagOf, requireEtag);
      VerifyNext(entries, i, store, sha, etagOf, requireEtag);
      failures := failures + found;
    }
    assert entries[..|entries|] == entries;
  }
}
