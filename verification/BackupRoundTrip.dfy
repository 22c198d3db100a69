/** Census, capture, restore and verification together: what was captured comes back, and a clean
    verification means that it did. */
module BackupRoundTrip {
  import opened Basics
  import opened Ordering
  import opened Census
  import opened Backup
  import opened TreeDigest

  // -------------------------------------------------------------- trimmed references

  lemma {:induction false} StripTwice(s: string)
    ensures Strip(Strip(s)) == Strip(s)
    decreases |s|
  {
    if s != "" && IsSpace(s[0]) {
      StripTwice(s[1..]);
    } else if s != "" && IsSpace(s[|s| - 1]) {
      StripTwice(s[..|s| - 1]);
    }
  }

  predicate Trimmed(r: Ref) { r.key != "" && Strip(r.key) == r.key }

  lemma CandidateTrimmed(key: string, sha: string, size: Option<nat>)
    ensures forall r :: r in Candidate(key, sha, size) ==> Trimmed(r)
  {
    StripTwice(key);
  }

  lemma DocumentTrimmed(d: Document)
    ensures forall r :: r in DocumentRefs(d) ==> Trimmed(r)
  {
    CandidateTrimmed(d.originalKey, d.originalSha, d.originalSize);
    if Given(d.previewKey) && Given(d.previewSha) { CandidateTrimmed(d.previewKey.value, d.previewSha.value, d.previewSize); }
    if Given(d.pageMapKey) && Given(d.pageMapSha) { CandidateTrimmed(d.pageMapKey.value, d.pageMapSha.value, None); }
  }

  lemma {:induction false} AllTrimmed(documents: seq<Document>, images: seq<Image>)
    ensures forall r :: r in AllRefs(documents, images) ==> Trimmed(r)
    decreases |documents|, |images|
  {
    if documents != [] {
      DocumentTrimmed(documents[0]);
      AllTrimmed(documents[1..], images);
    } else if images != [] {
      CandidateTrimmed(images[0].key, images[0].hash, None);
      AllTrimmed([], images[1..]);
    }
  }

  lemma CensusTrimmed(documents: seq<Document>, images: seq<Image>)
    ensures forall r :: r in CensusOf(documents, images) ==> Trimmed(r)
  {
    CensusExact(documents, images);
    AllTrimmed(documents, images);
  }

  // ---------------------------------------------------------------- captured entries

  /** The archive holds the store's bytes for this key under the key's file name. */
  predicate Archived(key: string, archive: Store, store: Store, nameOf: string -> string) {
    key in store && nameOf(key) in archive && archive[nameOf(key)] == store[key]
  }

  lemma {:induction false} ArchiveHolds(before: Store, refs: seq<Ref>, store: Store, sha: Bytes -> string, nameOf: string -> string, i: nat)
    requires GoodNames(nameOf) && Capturable(refs, store, sha) && i < |refs|
    ensures Archived(refs[i].key, ArchiveWith(before, refs, store, nameOf), store, nameOf)
  {
    assert CaptureErrorOf(refs[i], store, sha).None?;
    var n := |refs| - 1;
    assert CaptureErrorOf(refs[n], store, sha).None?;
    if i < n {
      assert Capturable(refs[..n], store, sha);
      ArchiveHolds(before, refs[..n], store, sha, nameOf, i);
    }
  }

  /** An entry that tells the truth about the store and whose bytes are in the archive. */
  predicate Faithful(e: Entry, archive: Store, store: Store, sha: Bytes -> string, nameOf: string -> string, etagOf: Bytes -> Option<string>) {
    && e.key != "" && Strip(e.key) == e.key
    && Archived(e.key, archive, store, nameOf)
    && e == EntryFor(e.key, store[e.key], sha, nameOf, etagOf)
  }

  predicate AllFaithful(entries: seq<Entry>, archive: Store, store: Store, sha: Bytes -> string, nameOf: string -> string, etagOf: Bytes -> Option<string>) {
    forall i :: 0 <= i < |entries| ==> Faithful(entries[i], archive, store, sha, nameOf, etagOf)
  }

  /** What a capture of these references returns. */
  function CapturedEntries(refs: seq<Ref>, store: Store, sha: Bytes -> string, nameOf: string -> string, etagOf: Bytes -> Option<string>): seq<Entry>
    requires Capturable(refs, store, sha)
  {
    SortBy(EntriesFor(refs, store, sha, nameOf, etagOf), EntryKey())
  }

  /** The manifest that is written for it. */
  function ManifestOf(refs: seq<Ref>, store: Store, storeKind: string, sha: Bytes -> string, nameOf: string -> string,
                      etagOf: Bytes -> Option<string>, textHash: string -> string): Manifest
    requires Capturable(refs, store, sha)
  {
    ManifestFrom(storeKind, CapturedEntries(refs, store, sha, nameOf, etagOf), textHash)
  }

  /** Its objects are the entries of the references, in some order. */
  lemma ManifestObjects(refs: seq<Ref>, store: Store, storeKind: string, sha: Bytes -> string, nameOf: string -> string,
                        etagOf: Bytes -> Option<string>, textHash: string -> string)
    requires Capturable(refs, store, sha)
    ensures var objects := ManifestOf(refs, store, storeKind, sha, nameOf, etagOf, textHash).objects;
      var entries := EntriesFor(refs, store, sha, nameOf, etagOf);
      |objects| == |entries| && (forall e :: e in objects <==> e in entries) && multiset(objects) == multiset(entries)
  {
    var entries := EntriesFor(refs, store, sha, nameOf, etagOf);
    SortKeeps(entries, EntryKey());
    SortKeeps(SortBy(entries, EntryKey()), EntryKey());
  }

  lemma EntriesFaithful(refs: seq<Ref>, store: Store, sha: Bytes -> string, nameOf: string -> string, etagOf: Bytes -> Option<string>)
    requires GoodNames(nameOf) && Capturable(refs, store, sha) && forall r :: r in refs ==> Trimmed(r)
    ensures AllFaithful(EntriesFor(refs, store, sha, nameOf, etagOf), ArchiveWith(map[], refs, store, nameOf), store, sha, nameOf, etagOf)
  {
    var entries := EntriesFor(refs, store, sha, nameOf, etagOf);
    forall i | 0 <= i < |refs|
      ensures Faithful(entries[i], ArchiveWith(map[], refs, store, nameOf), store, sha, nameOf, etagOf)
    {
      ArchiveHolds(map[], refs, store, sha, nameOf, i);
      assert refs[i] in refs;
    }
  }

  predicate HasEntry(entries: seq<Entry>, key: string) {
    exists i :: 0 <= i < |entries| && entries[i].key == key
  }

  lemma EntryForKey(refs: seq<Ref>, entries: seq<Entry>, manifest: seq<Entry>, key: string)
    requires |entries| == |refs| && forall i :: 0 <= i < |refs| ==> entries[i].key == refs[i].key
    requires forall e :: e in manifest <==> e in entries
    ensures HasKey(refs, key) <==> HasEntry(manifest, key)
  {
    if HasKey(refs, key) {
      var i :| 0 <= i < |refs| && refs[i].key == key;
      assert entries[i] in manifest;
    }
    if HasEntry(manifest, key) {
      var j :| 0 <= j < |manifest| && manifest[j].key == key;
      assert manifest[j] in entries;
      var i :| 0 <= i < |entries| && entries[i] == manifest[j];
      assert refs[i].key == key;
    }
  }

  lemma ManifestFaithful(refs: seq<Ref>, objects: seq<Entry>, store: Store, sha: Bytes -> string, nameOf: string -> string, etagOf: Bytes -> Option<string>)
    requires GoodNames(nameOf) && Capturable(refs, store, sha) && forall r :: r in refs ==> Trimmed(r)
    requires forall e :: e in objects <==> e in EntriesFor(refs, store, sha, nameOf, etagOf)
    ensures AllFaithful(objects, ArchiveWith(map[], refs, store, nameOf), store, sha, nameOf, etagOf)
    ensures forall key :: HasKey(refs, key) <==> HasEntry(objects, key)
  {
    var entries := EntriesFor(refs, store, sha, nameOf, etagOf);
    EntriesFaithful(refs, store, sha, nameOf, etagOf);
    forall j | 0 <= j < |objects|
      ensures Faithful(objects[j], ArchiveWith(map[], refs, store, nameOf), store, sha, nameOf, etagOf)
    {
      assert objects[j] in entries;
    }
    forall key
      ensures HasKey(refs, key) <==> HasEntry(objects, key)
    {
      EntryForKey(refs, entries, objects, key);
    }
  }

  // ------------------------------------------------------------------------ restore

  lemma FaithfulRestores(e: Entry, archive: Store, store: Store, sha: Bytes -> string, nameOf: string -> string, etagOf: Bytes -> Option<string>)
    requires GoodHash(sha) && GoodNames(nameOf) && Faithful(e, archive, store, sha, nameOf, etagOf)
    ensures RestoreFailure(e, archive, sha, {}).None?
    ensures Strip(e.key) == e.key && Strip(e.archiveFile) in archive && archive[Strip(e.archiveFile)] == store[e.key]
  {
  }

  lemma HasEntrySnoc(entries: seq<Entry>, key: string)
    requires entries != []
    ensures HasEntry(entries, key) <==> HasEntry(entries[..|entries| - 1], key) || key == entries[|entries| - 1].key
  {
    var front := entries[..|entries| - 1];
    if HasEntry(front, key) {
      var i :| 0 <= i < |front| && front[i].key == key;
      assert entries[i].key == key;
    }
    if HasEntry(entries, key) && key != entries[|entries| - 1].key {
      var i :| 0 <= i < |entries| && entries[i].key == key;
      assert front[i].key == key;
    }
  }

  /** Restoring faithful entries into an empty store puts back exactly their keys, with the original bytes. */
  lemma {:induction false} RestoresAll(entries: seq<Entry>, archive: Store, store: Store, sha: Bytes -> string, nameOf: string -> string, etagOf: Bytes -> Option<string>)
    requires GoodHash(sha) && GoodNames(nameOf) && AllFaithful(entries, archive, store, sha, nameOf, etagOf)
    ensures RestoreFailures(entries, archive, sha, {}) == []
    ensures var target := RestoredStore(map[], entries, archive, sha, {});
      forall key :: (key in target <==> HasEntry(entries, key)) && (key in target ==> key in store && target[key] == store[key])
  {
    if entries != [] {
      var n := |entries| - 1;
      assert Faithful(entries[n], archive, store, sha, nameOf, etagOf);
      RestoresAll(entries[..n], archive, store, sha, nameOf, etagOf);
      FaithfulRestores(entries[n], archive, store, sha, nameOf, etagOf);
      forall key
        ensures HasEntry(entries, key) <==> HasEntry(entries[..n], key) || key == entries[n].key
      {
        HasEntrySnoc(entries, key);
      }
    }
  }

  // ------------------------------------------------------------------ what may be captured

  /** A capture succeeds exactly when every referenced object is there, hashes to what its row says, and has
      the size its row says, if it says one. */
  lemma CapturableIs(refs: seq<Ref>, store: Store, sha: Bytes -> string)
    ensures Capturable(refs, store, sha) <==>
      forall i :: 0 <= i < |refs| ==>
        && refs[i].key in store && sha(store[refs[i].key]) == refs[i].sha
        && (refs[i].size.Some? ==> |store[refs[i].key]| == refs[i].size.value)
  {
    forall i | 0 <= i < |refs|
      ensures CaptureErrorOf(refs[i], store, sha).None? <==>
        && refs[i].key in store && sha(store[refs[i].key]) == refs[i].sha
        && (refs[i].size.Some? ==> |store[refs[i].key]| == refs[i].size.value)
    {
    }
  }

  // ------------------------------------------------------- restoring from any archive

  /** The entry records what the store held under its key. */
  predicate Recorded(e: Entry, store: Store, sha: Bytes -> string, nameOf: string -> string, etagOf: Bytes -> Option<string>) {
    e.key != "" && Strip(e.key) == e.key && e.key in store && e == EntryFor(e.key, store[e.key], sha, nameOf, etagOf)
  }

  /** What restoring this key must report, by the bytes that the archive holds for it. */
  function ReportFor(key: string, file: string, archive: Store, store: Store, refused: set<string>): Option<Failure>
    requires key in store
  {
    if file !in archive then Some(ArchiveMissing(key))
    else if archive[file] != store[key] then Some(ArchiveHashMismatch(key))
    else if key in refused then Some(PutFailed(key))
    else None
  }

  lemma RecordedOutcome(e: Entry, archive: Store, store: Store, sha: Bytes -> string, nameOf: string -> string, etagOf: Bytes -> Option<string>, refused: set<string>)
    requires GoodHash(sha) && GoodNames(nameOf) && Recorded(e, store, sha, nameOf, etagOf)
    ensures RestoreFailure(e, archive, sha, refused) == ReportFor(e.key, nameOf(e.key), archive, store, refused)
    ensures Strip(e.key) == e.key && Strip(e.archiveFile) == nameOf(e.key)
  {
  }

  predicate AllRecorded(entries: seq<Entry>, store: Store, sha: Bytes -> string, nameOf: string -> string, etagOf: Bytes -> Option<string>) {
    && (forall i :: 0 <= i < |entries| ==> Recorded(entries[i], store, sha, nameOf, etagOf))
    && (forall i, j :: 0 <= i < j < |entries| ==> entries[i].key != entries[j].key)
  }

  /** The two stores agree at this key. */
  predicate KeptAt(key: string, before: Store, after: Store) {
    (key in after <==> key in before) && (key in after ==> after[key] == before[key])
  }

  lemma LastOutcome(entries: seq<Entry>, archive: Store, into: Store, store: Store, sha: Bytes -> string,
                    nameOf: string -> string, etagOf: Bytes -> Option<string>, refused: set<string>)
    requires entries != [] && GoodHash(sha) && GoodNames(nameOf) && Recorded(entries[|entries| - 1], store, sha, nameOf, etagOf)
    ensures var e := entries[|entries| - 1]; var report := ReportFor(e.key, nameOf(e.key), archive, store, refused);
      var before := RestoredStore(into, entries[..|entries| - 1], archive, sha, refused);
      && RestoredStore(into, entries, archive, sha, refused) == (if report.None? then before[e.key := store[e.key]] else before)
      && RestoreFailures(entries, archive, sha, refused) ==
           RestoreFailures(entries[..|entries| - 1], archive, sha, refused) + (if report.Some? then [report.value] else [])
  {
    RecordedOutcome(entries[|entries| - 1], archive, store, sha, nameOf, etagOf, refused);
  }

  /** A restore leaves alone every key that no entry records. */
  lemma {:induction false} OthersLeftAlone(entries: seq<Entry>, key: string, archive: Store, into: Store, store: Store, sha: Bytes -> string,
                                           nameOf: string -> string, etagOf: Bytes -> Option<string>, refused: set<string>)
    requires GoodHash(sha) && GoodNames(nameOf) && AllRecorded(entries, store, sha, nameOf, etagOf)
    requires forall i :: 0 <= i < |entries| ==> entries[i].key != key
    ensures KeptAt(key, into, RestoredStore(into, entries, archive, sha, refused))
  {
    if entries != [] {
      OthersLeftAlone(entries[..|entries| - 1], key, archive, into, store, sha, nameOf, etagOf, refused);
      LastOutcome(entries, archive, into, store, sha, nameOf, etagOf, refused);
    }
  }

  /** Whatever the archive holds and the target refuses: every recorded key gets its original bytes, or is
      reported for the reason that holds and left as it was. */
  lemma {:induction false} RestoredOrReported(entries: seq<Entry>, i: nat, archive: Store, into: Store, store: Store, sha: Bytes -> string,
                                              nameOf: string -> string, etagOf: Bytes -> Option<string>, refused: set<string>)
    requires GoodHash(sha) && GoodNames(nameOf) && AllRecorded(entries, store, sha, nameOf, etagOf) && i < |entries|
    ensures var key := entries[i].key; var target := RestoredStore(into, entries, archive, sha, refused);
      var report := ReportFor(key, nameOf(key), archive, store, refused);
      && (report.None? ==> key in target && target[key] == store[key])
      && (report.Some? ==> report.value in RestoreFailures(entries, archive, sha, refused) && KeptAt(key, into, target))
  {
    var n := |entries| - 1;
    LastOutcome(entries, archive, into, store, sha, nameOf, etagOf, refused);
    if i < n {
      assert entries[i].key != entries[n].key;
      RestoredOrReported(entries[..n], i, archive, into, store, sha, nameOf, etagOf, refused);
    } else {
      OthersLeftAlone(entries[..n], entries[n].key, archive, into, store, sha, nameOf, etagOf, refused);
    }
  }

  // ------------------------------------------------------------------------- verify

  /** What verification reports of a recorded object is decided by the bytes that the target holds for it. */
  lemma VerifyReports(e: Entry, store: Store, target: Store, sha: Bytes -> string, nameOf: string -> string, etagOf: Bytes -> Option<string>)
    requires GoodHash(sha) && Recorded(e, store, sha, nameOf, etagOf)
    ensures VerifyEntry(e, target, sha, etagOf, false) ==
      if e.key !in target then [Missing(e.key)]
      else if target[e.key] == store[e.key] then []
      else [HashMismatch(e.key)] + (if |target[e.key]| != |store[e.key]| then [SizeMismatch(e.key)] else [])
  {
  }

  predicate Verifies(e: Entry, store: Store, sha: Bytes -> string, etagOf: Bytes -> Option<string>, requireEtag: bool) {
    VerifyEntry(e, store, sha, etagOf, requireEtag) == []
  }

  predicate AllVerify(entries: seq<Entry>, store: Store, sha: Bytes -> string, etagOf: Bytes -> Option<string>, requireEtag: bool) {
    entries == [] ||
    (AllVerify(entries[..|entries| - 1], store, sha, etagOf, requireEtag)
     && Verifies(entries[|entries| - 1], store, sha, etagOf, requireEtag))
  }

  lemma {:induction false} VerifiesAt(entries: seq<Entry>, i: nat, store: Store, sha: Bytes -> string, etagOf: Bytes -> Option<string>, requireEtag: bool)
    requires AllVerify(entries, store, sha, etagOf, requireEtag) && i < |entries|
    ensures Verifies(entries[i], store, sha, etagOf, requireEtag)
  {
    if i < |entries| - 1 {
      VerifiesAt(entries[..|entries| - 1], i, store, sha, etagOf, requireEtag);
    }
  }

  lemma {:induction false} NoFailures(entries: seq<Entry>, store: Store, sha: Bytes -> string, etagOf: Bytes -> Option<string>, requireEtag: bool)
    ensures VerifyFailures(entries, store, sha, etagOf, requireEtag) == [] <==> AllVerify(entries, store, sha, etagOf, requireEtag)
  {
    if entries != [] {
      NoFailures(entries[..|entries| - 1], store, sha, etagOf, requireEtag);
    }
  }

  lemma {:induction false} UnquotedEdges(s: string)
    ensures var u := Unquoted(s); u == "" || (u[0] != '"' && u[|u| - 1] != '"')
    ensures |Unquoted(s)| <= |s|
    decreases |s|
  {
    if s != "" && s[0] == '"' {
      UnquotedEdges(s[1..]);
    } else if s != "" && s[|s| - 1] == '"' {
      UnquotedEdges(s[..|s| - 1]);
    }
  }

  lemma {:induction false} StripShortens(s: string)
    ensures |Strip(s)| <= |s|
    ensures s != "" && !NoEdgeBlank(s) ==> |Strip(s)| < |s|
    decreases |s|
  {
    if s != "" && IsSpace(s[0]) {
      StripShortens(s[1..]);
    } else if s != "" && IsSpace(s[|s| - 1]) {
      StripShortens(s[..|s| - 1]);
    }
  }

  /** An ETag is normalized once at capture and once more at verification. It survives that exactly when it
      is plain. */
  lemma PlainSurvives(raw: Option<string>)
    ensures NormalizeEtag(raw).Some? && NormalizeEtag(NormalizeEtag(raw)) == NormalizeEtag(raw) <==> PlainEtag(raw)
  {
    if raw.Some? {
      var t := Unquoted(Strip(raw.value));
      UnquotedEdges(Strip(raw.value));
      StripShortens(t);
      UnquotedEdges(Strip(t));
    }
  }

  /** Against the original bytes, an entry verifies exactly when its ETag is plain. */
  lemma FaithfulVerifies(e: Entry, archive: Store, store: Store, target: Store, sha: Bytes -> string, nameOf: string -> string,
                         etagOf: Bytes -> Option<string>, requireEtag: bool)
    requires GoodHash(sha) && Faithful(e, archive, store, sha, nameOf, etagOf)
    requires e.key in target && target[e.key] == store[e.key]
    ensures Verifies(e, target, sha, etagOf, requireEtag) <==> (requireEtag ==> PlainEtag(etagOf(store[e.key])))
  {
    PlainSurvives(etagOf(store[e.key]));
  }

  lemma CleanEntryIsOriginal(e: Entry, archive: Store, store: Store, target: Store, sha: Bytes -> string, nameOf: string -> string,
                             etagOf: Bytes -> Option<string>, requireEtag: bool)
    requires GoodHash(sha) && Faithful(e, archive, store, sha, nameOf, etagOf)
    requires Verifies(e, target, sha, etagOf, requireEtag)
    ensures e.key in target && target[e.key] == store[e.key]
  {
  }

  /** Whatever happened to archive and target in between: no failures means the original bytes are there. */
  lemma VerifiedMeansOriginal(refs: seq<Ref>, store: Store, storeKind: string, target: Store, sha: Bytes -> string,
                              nameOf: string -> string, etagOf: Bytes -> Option<string>, textHash: string -> string, requireEtag: bool)
    requires GoodHash(sha) && GoodNames(nameOf) && Capturable(refs, store, sha) && (forall r :: r in refs ==> Trimmed(r))
    ensures VerifyFailures(ManifestOf(refs, store, storeKind, sha, nameOf, etagOf, textHash).objects, target, sha, etagOf, requireEtag) == [] ==>
      forall i :: 0 <= i < |refs| ==> refs[i].key in target && target[refs[i].key] == store[refs[i].key]
  {
    var objects := ManifestOf(refs, store, storeKind, sha, nameOf, etagOf, textHash).objects;
    ManifestObjects(refs, store, storeKind, sha, nameOf, etagOf, textHash);
    ManifestFaithful(refs, objects, store, sha, nameOf, etagOf);
    NoFailures(objects, target, sha, etagOf, requireEtag);
    if AllVerify(objects, target, sha, etagOf, requireEtag) {
      forall i | 0 <= i < |refs|
        ensures refs[i].key in target && target[refs[i].key] == store[refs[i].key]
      {
        assert HasKey(refs, refs[i].key);
        var j :| 0 <= j < |objects| && objects[j].key == refs[i].key;
        VerifiesAt(objects, j, target, sha, etagOf, requireEtag);
        CleanEntryIsOriginal(objects[j], ArchiveWith(map[], refs, store, nameOf), store, target, sha, nameOf, etagOf, requireEtag);
      }
    }
  }

  // --------------------------------------------------------------------- round trip

  /** The trimmed keys that a document row refers to, a reused preview's included. */
  predicate RefersTo(d: Document, key: string) {
    || (key == Strip(d.originalKey) && Lower(Strip(d.originalSha)) != "")
    || (Given(d.previewKey) && Given(d.previewSha) && key == Strip(d.previewKey.value) && Lower(Strip(d.previewSha.value)) != "")
    || (Given(d.pageMapKey) && Given(d.pageMapSha) && key == Strip(d.pageMapKey.value) && Lower(Strip(d.pageMapSha.value)) != "")
  }

  /** A preview that reuses the original shares its key. */
  predicate ReuseShares(d: Document) {
    d.reusesOriginal && Given(d.previewKey) ==> Strip(d.previewKey.value) == Strip(d.originalKey) && Lower(Strip(d.originalSha)) != ""
  }

  lemma RowInDocumentRefs(d: Document, key: string)
    requires RefersTo(d, key) && ReuseShares(d) && key != ""
    ensures exists r :: r in DocumentRefs(d) && r.key == key
  {
    if key == Strip(d.originalKey) && Lower(Strip(d.originalSha)) != "" {
      assert Ref(key, Lower(Strip(d.originalSha)), d.originalSize) in DocumentRefs(d);
    } else if Given(d.previewKey) && Given(d.previewSha) && key == Strip(d.previewKey.value) && Lower(Strip(d.previewSha.value)) != "" {
      assert Ref(key, Lower(Strip(d.previewSha.value)), d.previewSize) in DocumentRefs(d);
    } else {
      assert Ref(key, Lower(Strip(d.pageMapSha.value)), None) in DocumentRefs(d);
    }
  }

  /** The reference is one that this row makes: a key with the hash and the size given for it. */
  predicate MadeBy(d: Document, r: Ref) {
    && r.key != "" && r.sha != ""
    && (|| r == Ref(Strip(d.originalKey), Lower(Strip(d.originalSha)), d.originalSize)
        || (d.previewKey.Some? && d.previewSha.Some? && !d.reusesOriginal
            && r == Ref(Strip(d.previewKey.value), Lower(Strip(d.previewSha.value)), d.previewSize))
        || (d.pageMapKey.Some? && d.pageMapSha.Some?
            && r == Ref(Strip(d.pageMapKey.value), Lower(Strip(d.pageMapSha.value)), None)))
  }

  lemma {:induction false} RefsHaveRows(documents: seq<Document>, images: seq<Image>, r: Ref)
    requires r in AllRefs(documents, images)
    ensures || (exists i :: 0 <= i < |documents| && MadeBy(documents[i], r))
            || (exists i :: 0 <= i < |images| && r == Ref(Strip(images[i].key), Lower(Strip(images[i].hash)), None))
    decreases |documents|, |images|
  {
    if documents != [] {
      if r in DocumentRefs(documents[0]) {
        assert MadeBy(documents[0], r);
      } else {
        RefsHaveRows(documents[1..], images, r);
        if exists i :: 0 <= i < |documents[1..]| && MadeBy(documents[1..][i], r) {
          var i :| 0 <= i < |documents[1..]| && MadeBy(documents[1..][i], r);
          assert MadeBy(documents[i + 1], r);
        }
      }
    } else if r !in Candidate(images[0].key, images[0].hash, None) {
      RefsHaveRows([], images[1..], r);
      var i :| 0 <= i < |images[1..]| && r == Ref(Strip(images[1..][i].key), Lower(Strip(images[1..][i].hash)), None);
      assert images[i + 1] == images[1..][i];
    } else {
      assert r == Ref(Strip(images[0].key), Lower(Strip(images[0].hash)), None);
    }
  }

  /** The census holds nothing that no row refers to: each of its references is one that some row makes. */
  lemma CensusFromRows(documents: seq<Document>, images: seq<Image>, r: Ref)
    requires r in CensusOf(documents, images)
    ensures || (exists i :: 0 <= i < |documents| && MadeBy(documents[i], r))
            || (exists i :: 0 <= i < |images| && r == Ref(Strip(images[i].key), Lower(Strip(images[i].hash)), None))
  {
    CensusExact(documents, images);
    assert FirstOf(r, AllRefs(documents, images));
    RefsHaveRows(documents, images, r);
  }

  lemma {:induction false} RowInAllRefs(documents: seq<Document>, images: seq<Image>, i: nat, r: Ref)
    requires i < |documents| && r in DocumentRefs(documents[i])
    ensures r in AllRefs(documents, images)
  {
    if i > 0 {
      RowInAllRefs(documents[1..], images, i - 1, r);
    }
  }

  lemma {:induction false} ImageInAllRefs(documents: seq<Document>, images: seq<Image>, i: nat, r: Ref)
    requires i < |images| && r in Candidate(images[i].key, images[i].hash, None)
    ensures r in AllRefs(documents, images)
    decreases |documents|, |images|
  {
    if documents != [] {
      ImageInAllRefs(documents[1..], images, i, r);
    } else if i > 0 {
      ImageInAllRefs([], images[1..], i - 1, r);
    }
  }

  lemma InCensus(documents: seq<Document>, images: seq<Image>, r: Ref)
    requires r in AllRefs(documents, images)
    ensures HasKey(CensusOf(documents, images), r.key)
  {
    CensusExact(documents, images);
    var all := AllRefs(documents, images);
    var i :| 0 <= i < |all| && all[i] == r;
  }

  /** Every key that a row refers to is in the census. */
  lemma RowsInCensus(documents: seq<Document>, images: seq<Image>)
    ensures forall i, key :: 0 <= i < |documents| && RefersTo(documents[i], key) && ReuseShares(documents[i]) && key != "" ==>
      HasKey(CensusOf(documents, images), key)
    ensures forall i :: 0 <= i < |images| && Strip(images[i].key) != "" && Lower(Strip(images[i].hash)) != "" ==>
      HasKey(CensusOf(documents, images), Strip(images[i].key))
  {
    forall i, key | 0 <= i < |documents| && RefersTo(documents[i], key) && ReuseShares(documents[i]) && key != ""
      ensures HasKey(CensusOf(documents, images), key)
    {
      RowInDocumentRefs(documents[i], key);
      var r :| r in DocumentRefs(documents[i]) && r.key == key;
      RowInAllRefs(documents, images, i, r);
      InCensus(documents, images, r);
    }
    forall i | 0 <= i < |images| && Strip(images[i].key) != "" && Lower(Strip(images[i].hash)) != ""
      ensures HasKey(CensusOf(documents, images), Strip(images[i].key))
    {
      var r := Ref(Strip(images[i].key), Lower(Strip(images[i].hash)), None);
      ImageInAllRefs(documents, images, i, r);
      InCensus(documents, images, r);
    }
  }

  /** The objects' bytes are the original ones. */
  predicate Intact(objects: seq<Entry>, store: Store, target: Store) {
    forall i :: 0 <= i < |objects| ==> objects[i].key in store && objects[i].key in target && target[objects[i].key] == store[objects[i].key]
  }

  lemma {:induction false} PlainVerifies(objects: seq<Entry>, archive: Store, store: Store, target: Store, sha: Bytes -> string,
                                        nameOf: string -> string, etagOf: Bytes -> Option<string>, requireEtag: bool)
    requires GoodHash(sha) && AllFaithful(objects, archive, store, sha, nameOf, etagOf) && Intact(objects, store, target)
    requires requireEtag ==> forall i :: 0 <= i < |objects| ==> PlainEtag(etagOf(store[objects[i].key]))
    ensures AllVerify(objects, target, sha, etagOf, requireEtag)
  {
    if objects != [] {
      var n := |objects| - 1;
      PlainVerifies(objects[..n], archive, store, target, sha, nameOf, etagOf, requireEtag);
      assert Faithful(objects[n], archive, store, sha, nameOf, etagOf);
      FaithfulVerifies(objects[n], archive, store, target, sha, nameOf, etagOf, requireEtag);
    }
  }

  lemma VerifiedPlain(objects: seq<Entry>, archive: Store, store: Store, target: Store, sha: Bytes -> string,
                      nameOf: string -> string, etagOf: Bytes -> Option<string>, i: nat)
    requires GoodHash(sha) && AllFaithful(objects, archive, store, sha, nameOf, etagOf) && Intact(objects, store, target)
    requires AllVerify(objects, target, sha, etagOf, true) && i < |objects|
    ensures PlainEtag(etagOf(store[objects[i].key]))
  {
    VerifiesAt(objects, i, target, sha, etagOf, true);
    FaithfulVerifies(objects[i], archive, store, target, sha, nameOf, etagOf, true);
  }

  lemma VerifiesRestored(objects: seq<Entry>, archive: Store, store: Store, target: Store, sha: Bytes -> string,
                         nameOf: string -> string, etagOf: Bytes -> Option<string>, requireEtag: bool)
    requires GoodHash(sha) && AllFaithful(objects, archive, store, sha, nameOf, etagOf) && Intact(objects, store, target)
    ensures AllVerify(objects, target, sha, etagOf, requireEtag) <==>
      (requireEtag ==> forall i :: 0 <= i < |objects| ==> PlainEtag(etagOf(store[objects[i].key])))
  {
    if requireEtag && AllVerify(objects, target, sha, etagOf, requireEtag) {
      forall i | 0 <= i < |objects|
        ensures PlainEtag(etagOf(store[objects[i].key]))
      {
        VerifiedPlain(objects, archive, store, target, sha, nameOf, etagOf, i);
      }
    }
    if requireEtag ==> forall i :: 0 <= i < |objects| ==> PlainEtag(etagOf(store[objects[i].key])) {
      PlainVerifies(objects, archive, store, target, sha, nameOf, etagOf, requireEtag);
    }
  }

  /** For the objects of a store that holds exactly their keys. */
  lemma VerifiesStore(objects: seq<Entry>, archive: Store, store: Store, target: Store, sha: Bytes -> string,
                      nameOf: string -> string, etagOf: Bytes -> Option<string>, requireEtag: bool)
    requires GoodHash(sha) && AllFaithful(objects, archive, store, sha, nameOf, etagOf)
    requires forall key :: (key in target <==> HasEntry(objects, key)) && (key in target ==> key in store && target[key] == store[key])
    ensures VerifyFailures(objects, target, sha, etagOf, requireEtag) == [] <==>
      (requireEtag ==> forall key :: key in target ==> PlainEtag(etagOf(target[key])))
  {
    forall i | 0 <= i < |objects|
      ensures objects[i].key in target
    {
      assert HasEntry(objects, objects[i].key);
    }
    NoFailures(objects, target, sha, etagOf, requireEtag);
    VerifiesRestored(objects, archive, store, target, sha, nameOf, etagOf, requireEtag);
    forall key | key in target
      ensures exists i :: 0 <= i < |objects| && objects[i].key == key
    {
      assert HasEntry(objects, key);
    }
  }

  /** Entries of references with rising keys have distinct keys. */
  lemma EntriesDiffer(refs: seq<Ref>, store: Store, sha: Bytes -> string, nameOf: string -> string, etagOf: Bytes -> Option<string>)
    requires Capturable(refs, store, sha) && KeysRise(refs, KeyOf())
    ensures KeysDiffer(EntriesFor(refs, store, sha, nameOf, etagOf), EntryKey())
  {
    var entries := EntriesFor(refs, store, sha, nameOf, etagOf);
    forall i, j | 0 <= i < j < |entries|
      ensures EntryKey()(entries[i]) != EntryKey()(entries[j])
    {
      assert Less(KeyOf()(refs[i]), KeyOf()(refs[j]));
      LessTotal(refs[i].key, refs[j].key);
    }
  }

  /** The recorded tree digest of a captured manifest verifies, in any order of its objects. */
  lemma ManifestDigestVerifies(documents: seq<Document>, images: seq<Image>, store: Store, storeKind: string, sha: Bytes -> string,
                               nameOf: string -> string, etagOf: Bytes -> Option<string>, textHash: string -> string, listed: seq<Entry>)
    requires DigestText(textHash) && Capturable(CensusOf(documents, images), store, sha)
    ensures var manifest := ManifestOf(CensusOf(documents, images), store, storeKind, sha, nameOf, etagOf, textHash);
      multiset(listed) == multiset(manifest.objects) ==> DigestFailureOf(listed, manifest.objectTreeDigest, textHash) == None
  {
    var refs := CensusOf(documents, images);
    var entries := EntriesFor(refs, store, sha, nameOf, etagOf);
    var captured := CapturedEntries(refs, store, sha, nameOf, etagOf);
    CensusExact(documents, images);
    EntriesDiffer(refs, store, sha, nameOf, etagOf);
    KeysDifferInAnyOrder(entries, captured);
    if multiset(listed) == multiset(captured) {
      RecordedDigestVerifies(storeKind, captured, listed, textHash);
    }
  }

  /** What restoring the captured census into an empty store gives. */
  function RestoredFrom(documents: seq<Document>, images: seq<Image>, store: Store, storeKind: string, sha: Bytes -> string,
                        nameOf: string -> string, etagOf: Bytes -> Option<string>, textHash: string -> string): Store
    requires Capturable(CensusOf(documents, images), store, sha)
  {
    RestoredStore(map[], ManifestOf(CensusOf(documents, images), store, storeKind, sha, nameOf, etagOf, textHash).objects,
                  ArchiveWith(map[], CensusOf(documents, images), store, nameOf), sha, {})
  }

  /** A successful capture of the census, restored into an empty store, restores without failures exactly the
      census keys with their original bytes; the tree digest verifies; verification of the objects is clean
      exactly when every ETag is plain, if ETags are required; and every key that any row refers to reads back
      its original bytes. */
  lemma RoundTrip(documents: seq<Document>, images: seq<Image>, store: Store, storeKind: string,
                  sha: Bytes -> string, nameOf: string -> string, etagOf: Bytes -> Option<string>, textHash: string -> string, requireEtag: bool)
    requires GoodHash(sha) && GoodNames(nameOf) && DigestText(textHash)
    requires Capturable(CensusOf(documents, images), store, sha)
    ensures var refs := CensusOf(documents, images);
      var manifest := ManifestOf(refs, store, storeKind, sha, nameOf, etagOf, textHash);
      var target := RestoredFrom(documents, images, store, storeKind, sha, nameOf, etagOf, textHash);
      && RestoreFailures(manifest.objects, ArchiveWith(map[], refs, store, nameOf), sha, {}) == []
      && manifest.objectCount == |refs|
      && DigestFailureOf(manifest.objects, manifest.objectTreeDigest, textHash) == None
      && (forall key :: key in target <==> HasKey(refs, key))
      && (forall key :: key in target ==> key in store && target[key] == store[key])
      && (VerifyFailures(manifest.objects, target, sha, etagOf, requireEtag) == [] <==>
            (requireEtag ==> forall key :: key in target ==> PlainEtag(etagOf(target[key]))))
      && (forall i, key :: 0 <= i < |documents| && RefersTo(documents[i], key) && ReuseShares(documents[i]) && key != "" ==> key in target)
      && (forall i :: 0 <= i < |images| && Strip(images[i].key) != "" && Lower(Strip(images[i].hash)) != "" ==> Strip(images[i].key) in target)
  {
    var refs := CensusOf(documents, images);
    var manifest, archive := ManifestOf(refs, store, storeKind, sha, nameOf, etagOf, textHash), ArchiveWith(map[], refs, store, nameOf);
    ManifestObjects(refs, store, storeKind, sha, nameOf, etagOf, textHash);
    CensusTrimmed(documents, images);
    ManifestFaithful(refs, manifest.objects, store, sha, nameOf, etagOf);
    RestoresAll(manifest.objects, archive, store, sha, nameOf, etagOf);
    VerifiesStore(manifest.objects, archive, store, RestoredStore(map[], manifest.objects, archive, sha, {}), sha, nameOf, etagOf, requireEtag);
    ManifestDigestVerifies(documents, images, store, storeKind, sha, nameOf, etagOf, textHash, manifest.objects);
    RowsInCensus(documents, images);
  }

  // ------------------------------------------------------------------ ETags that fail

  /** An ETag with a blank at an edge inside its quotes: captured in one form, compared in another. */
  predicate BlankEdged(raw: Option<string>) {
    raw.Some? && Unquoted(Strip(raw.value)) != "" && !NoEdgeBlank(Unquoted(Strip(raw.value)))
  }

  lemma BlankEdgedMismatch(e: Entry, archive: Store, store: Store, target: Store, sha: Bytes -> string, nameOf: string -> string,
                           etagOf: Bytes -> Option<string>)
    requires GoodHash(sha) && Faithful(e, archive, store, sha, nameOf, etagOf)
    requires e.key in target && target[e.key] == store[e.key] && BlankEdged(etagOf(store[e.key]))
    ensures VerifyEntry(e, target, sha, etagOf, true) == [EtagMismatch(e.key)] || VerifyEntry(e, target, sha, etagOf, true) == [EtagMissingInManifest(e.key)]
  {
    PlainSurvives(etagOf(store[e.key]));
  }

  lemma {:induction false} EntryFailureReported(entries: seq<Entry>, i: nat, f: Failure, store: Store, sha: Bytes -> string, etagOf: Bytes -> Option<string>, requireEtag: bool)
    requires i < |entries| && f in VerifyEntry(entries[i], store, sha, etagOf, requireEtag)
    ensures f in VerifyFailures(entries, store, sha, etagOf, requireEtag)
  {
    if i < |entries| - 1 {
      EntryFailureReported(entries[..|entries| - 1], i, f, store, sha, etagOf, requireEtag);
    }
  }

  /** Every object whose ETag has a blank at an edge inside its quotes is reported after a restore, although
      its bytes are intact. */
  lemma BlankInsideQuotes(documents: seq<Document>, images: seq<Image>, store: Store, storeKind: string,
                          sha: Bytes -> string, nameOf: string -> string, etagOf: Bytes -> Option<string>, textHash: string -> string, key: string)
    requires GoodHash(sha) && GoodNames(nameOf) && DigestText(textHash)
    requires Capturable(CensusOf(documents, images), store, sha)
    ensures var manifest := ManifestOf(CensusOf(documents, images), store, storeKind, sha, nameOf, etagOf, textHash);
      var target := RestoredFrom(documents, images, store, storeKind, sha, nameOf, etagOf, textHash);
      HasKey(CensusOf(documents, images), key) && key in store && BlankEdged(etagOf(store[key])) ==>
        && key in target && target[key] == store[key]
        && (EtagMismatch(key) in VerifyFailures(manifest.objects, target, sha, etagOf, true)
            || EtagMissingInManifest(key) in VerifyFailures(manifest.objects, target, sha, etagOf, true))
  {
    var refs := CensusOf(documents, images);
    var manifest, archive := ManifestOf(refs, store, storeKind, sha, nameOf, etagOf, textHash), ArchiveWith(map[], refs, store, nameOf);
    var target := RestoredFrom(documents, images, store, storeKind, sha, nameOf, etagOf, textHash);
    RoundTrip(documents, images, store, storeKind, sha, nameOf, etagOf, textHash, true);
    ManifestObjects(refs, store, storeKind, sha, nameOf, etagOf, textHash);
    CensusTrimmed(documents, images);
    ManifestFaithful(refs, manifest.objects, store, sha, nameOf, etagOf);
    if HasKey(refs, key) && key in store && BlankEdged(etagOf(store[key])) {
      assert HasEntry(manifest.objects, key);
      var i :| 0 <= i < |manifest.objects| && manifest.objects[i].key == key;
      BlankEdgedMismatch(manifest.objects[i], archive, store, target, sha, nameOf, etagOf);
      var f := VerifyEntry(manifest.objects[i], target, sha, etagOf, true)[0];
      EntryFailureReported(manifest.objects, i, f, target, sha, etagOf, true);
    }
  }

  lemma OneKeyCensus(data: Bytes, sha: Bytes -> string)
    requires GoodHash(sha)
    ensures CensusOf([Document("key", sha(data), None, None, None, None, None, None, false)], []) == [Ref("key", sha(data), None)]
  {
    var d := Document("key", sha(data), None, None, None, None, None, None, false);
    var r := Ref("key", sha(data), None);
    assert DocumentRefs(d) == [r];
    assert AllRefs([d], []) == [r] + AllRefs([], []);
    assert Added([], [r]) == Added([r], []) == [r];
    assert SortBy([r], KeyOf()) == [r];
  }

  lemma BlankEdgedLiteral()
    ensures BlankEdged(Some("\" a \""))
  {
    var raw: string := "\" a \"";
    assert Strip(raw) == raw;
    assert raw[1..] == " a \"" && " a \""[..3] == " a ";
    assert Unquoted(raw) == Unquoted(raw[1..]) == " a ";
  }

  /** One such backup: a single document, stored under a quoted ETag with blanks, captures and restores, and
      its verification fails. */
  lemma OneFailingBackup(data: Bytes, sha: Bytes -> string, nameOf: string -> string, textHash: string -> string)
    requires GoodHash(sha) && GoodNames(nameOf) && DigestText(textHash)
    ensures var documents := [Document("key", sha(data), None, None, None, None, None, None, false)];
      var store := map["key" := data]; var etagOf := (_: Bytes) => Some("\" a \"");
      && Capturable(CensusOf(documents, []), store, sha)
      && VerifyFailures(ManifestOf(CensusOf(documents, []), store, "s3", sha, nameOf, etagOf, textHash).objects,
                        RestoredFrom(documents, [], store, "s3", sha, nameOf, etagOf, textHash), sha, etagOf, true) != []
  {
    var documents := [Document("key", sha(data), None, None, None, None, None, None, false)];
    var store: Store := map["key" := data];
    var etagOf := (_: Bytes) => Some("\" a \"");
    OneKeyCensus(data, sha);
    BlankEdgedLiteral();
    BlankInsideQuotes(documents, [], store, "s3", sha, nameOf, etagOf, textHash, "key");
  }
}
