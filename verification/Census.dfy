/** The census of object references: which stored objects the database rows refer to. */
module Census {
  import opened Basics
  import opened Ordering

  datatype Ref = Ref(key: string, sha: string, size: Option<nat>)

  datatype Document = Document(
    originalKey: string, originalSha: string, originalSize: Option<nat>,
    previewKey: Option<string>, previewSha: Option<string>, previewSize: Option<nat>,
    pageMapKey: Option<string>, pageMapSha: Option<string>, reusesOriginal: bool)

  datatype Image = Image(key: string, hash: string)

  /** str.lower() on ASCII. */
  function Lower(s: string): (r: string)
    ensures |r| == |s|
  {
    if s == "" then ""
    else [if 'A' <= s[0] <= 'Z' then s[0] + 32 as char else s[0]] + Lower(s[1..])
  }

  /** A reference with its key and hash normalized; nothing if either is blank. */
  function Candidate(key: string, sha: string, size: Option<nat>): seq<Ref> {
    if Strip(key) == "" || Lower(Strip(sha)) == "" then [] else [Ref(Strip(key), Lower(Strip(sha)), size)]
  }

  predicate Given(value: Option<string>) { value.Some? && value.value != "" }

  /** What one document row contributes, in order. A preview that reuses the original is left out. */
  function DocumentRefs(d: Document): seq<Ref> {
    Candidate(d.originalKey, d.originalSha, d.originalSize)
    + (if Given(d.previewKey) && Given(d.previewSha) && !d.reusesOriginal
       then Candidate(d.previewKey.value, d.previewSha.value, d.previewSize) else [])
    + (if Given(d.pageMapKey) && Given(d.pageMapSha)
       then Candidate(d.pageMapKey.value, d.pageMapSha.value, None) else [])
  }

  function AllRefs(documents: seq<Document>, images: seq<Image>): seq<Ref> {
    if documents != [] then DocumentRefs(documents[0]) + AllRefs(documents[1..], images)
    else if images != [] then Candidate(images[0].key, images[0].hash, None) + AllRefs([], images[1..])
    else []
  }

  predicate HasKey(refs: seq<Ref>, key: string) {
    exists i :: 0 <= i < |refs| && refs[i].key == key
  }

  /** The dictionary by key, in insertion order: a key that is there keeps its first reference. */
  function Added(byKey: seq<Ref>, refs: seq<Ref>): seq<Ref>
    decreases |refs|
  {
    if refs == [] then byKey
    else Added(if HasKey(byKey, refs[0].key) then byKey else byKey + [refs[0]], refs[1..])
  }

  lemma {:induction false} AddedConcat(byKey: seq<Ref>, first: seq<Ref>, second: seq<Ref>)
    ensures Added(byKey, first + second) == Added(Added(byKey, first), second)
    decreases |first|
  {
    if first == [] {
      assert first + second == second;
    } else {
      assert (first + second)[1..] == first[1..] + second;
      AddedConcat(if HasKey(byKey, first[0].key) then byKey else byKey + [first[0]], first[1..], second);
    }
  }

  /** add_ref */
  method AddRef(before: seq<Ref>, key: string, sha: string, size: Option<nat>) returns (byKey: seq<Ref>)
    ensures byKey == Added(before, Candidate(key, sha, size))
  {
    var safeKey, safeSha := Strip(key), Lower(Strip(sha));
    if safeKey == "" || safeSha == "" {
      return before;
    }
    if HasKey(before, safeKey) {
      return before;
    }
    return before + [Ref(safeKey, safeSha, size)];
  }

  method AddDocument(before: seq<Ref>, d: Document) returns (byKey: seq<Ref>)
    ensures byKey == Added(before, DocumentRefs(d))
  {
    byKey := AddRef(before, d.originalKey, d.originalSha, d.originalSize);
    ghost var refs := Candidate(d.originalKey, d.originalSha, d.originalSize);
    if Given(d.previewKey) && Given(d.previewSha) && !d.reusesOriginal {
      AddedConcat(before, refs, Candidate(d.previewKey.value, d.previewSha.value, d.previewSize));
      refs := refs + Candidate(d.previewKey.value, d.previewSha.value, d.previewSize);
      byKey := AddRef(byKey, d.previewKey.value, d.previewSha.value, d.previewSize);
    }
    if Given(d.pageMapKey) && Given(d.pageMapSha) {
      AddedConcat(before, refs, Candidate(d.pageMapKey.value, d.pageMapSha.value, None));
      refs := refs + Candidate(d.pageMapKey.value, d.pageMapSha.value, None);
      byKey := AddRef(byKey, d.pageMapKey.value, d.pageMapSha.value, None);
    }
    assert refs == DocumentRefs(d);
  }

  function KeyOf(): Ref -> string { (r: Ref) => r.key }

  function CensusOf(documents: seq<Document>, images: seq<Image>): seq<Ref> {
    SortBy(Added([], AllRefs(documents, images)), KeyOf())
  }

  /** build_census_refs */
  method BuildCensusRefs(documents: seq<Document>, images: seq<Image>) returns (refs: seq<Ref>)
    ensures refs == CensusOf(documents, images)
  {
    var byKey: seq<Ref> := [];
    assert documents[0..] == documents;
    for i := 0 to |documents|
      invariant Added(byKey, AllRefs(documents[i..], images)) == Added([], AllRefs(documents, images))
    {
      AddedConcat(byKey, DocumentRefs(documents[i]), AllRefs(documents[i + 1..], images));
      assert documents[i..][1..] == documents[i + 1..];
      byKey := AddDocument(byKey, documents[i]);
    }
    assert documents[|documents|..] == [] && images[0..] == images;
    for i := 0 to |images|
      invariant Added(byKey, AllRefs([], images[i..])) == Added([], AllRefs(documents, images))
    {
      AddedConcat(byKey, Candidate(images[i].key, images[i].hash, None), AllRefs([], images[i + 1..]));
      assert images[i..][1..] == images[i + 1..];
      byKey := AddRef(byKey, images[i].key, images[i].hash, None);
    }
    refs := SortBy(byKey, KeyOf());
  }

  // ------------------------------------------------------------- what the census says

  predicate UniqueKeys(refs: seq<Ref>) {
    forall i, j :: 0 <= i < j < |refs| ==> refs[i].key != refs[j].key
  }

  /** The first reference of its key in the list. */
  predicate FirstOf(r: Ref, refs: seq<Ref>) {
    exists i :: 0 <= i < |refs| && refs[i] == r && !HasKey(refs[..i], r.key)
  }

  lemma KeysStay(before: seq<Ref>, after: seq<Ref>)
    requires before <= after
    ensures forall key :: HasKey(before, key) ==> HasKey(after, key)
  {
  }

  lemma FirstFromTail(byKey: seq<Ref>, next: seq<Ref>, refs: seq<Ref>, r: Ref)
    requires refs != [] && next == (if HasKey(byKey, refs[0].key) then byKey else byKey + [refs[0]])
    requires r in next || (FirstOf(r, refs[1..]) && !HasKey(next, r.key))
    ensures r in byKey || (FirstOf(r, refs) && !HasKey(byKey, r.key))
  {
    if r !in next {
      var tail := refs[1..];
      var i :| 0 <= i < |tail| && tail[i] == r && !HasKey(tail[..i], r.key);
      KeysStay(byKey, next);
      assert refs[..i + 1] == [refs[0]] + tail[..i];
      assert HasKey(next, refs[0].key) by { if !HasKey(byKey, refs[0].key) { assert next[|byKey|].key == refs[0].key; } }
      assert refs[i + 1] == r && !HasKey(refs[..i + 1], r.key);
    } else if r !in byKey {
      assert refs[0] == r && !HasKey(refs[..0], r.key);
    }
  }

  lemma {:induction false} AddedExact(byKey: seq<Ref>, refs: seq<Ref>)
    requires UniqueKeys(byKey)
    ensures var all := Added(byKey, refs);
      && UniqueKeys(all) && byKey <= all
      && (forall i :: 0 <= i < |refs| ==> HasKey(all, refs[i].key))
      && (forall r :: r in all ==> r in byKey || (FirstOf(r, refs) && !HasKey(byKey, r.key)))
    decreases |refs|
  {
    if refs != [] {
      var next := if HasKey(byKey, refs[0].key) then byKey else byKey + [refs[0]];
      AddedExact(next, refs[1..]);
      var all := Added(byKey, refs);
      KeysStay(next, all);
      forall i | 0 <= i < |refs|
        ensures HasKey(all, refs[i].key)
      {
        if i > 0 { assert refs[i] == refs[1..][i - 1]; }
      }
      forall r | r in all
        ensures r in byKey || (FirstOf(r, refs) && !HasKey(byKey, r.key))
      {
        FirstFromTail(byKey, next, refs, r);
      }
    }
  }

  lemma SameKeys(refs: seq<Ref>, others: seq<Ref>, key: string)
    requires HasKey(refs, key) && forall r :: r in refs ==> r in others
    ensures HasKey(others, key)
  {
    var i :| 0 <= i < |refs| && refs[i].key == key;
    assert refs[i] in others;
  }

  /** The census lists every referenced key once, in rising order, with the first reference any row gave it. */
  lemma CensusExact(documents: seq<Document>, images: seq<Image>)
    ensures var all := AllRefs(documents, images); var census := CensusOf(documents, images);
      && KeysRise(census, KeyOf())
      && (forall i :: 0 <= i < |all| ==> HasKey(census, all[i].key))
      && (forall r :: r in census ==> FirstOf(r, all))
  {
    var all := AllRefs(documents, images);
    var byKey := Added([], all);
    AddedExact([], all);
    assert KeysDiffer(byKey, KeyOf());
    SortRises(byKey, KeyOf());
    SortKeeps(byKey, KeyOf());
    forall i | 0 <= i < |all|
      ensures HasKey(CensusOf(documents, images), all[i].key)
    {
      SameKeys(byKey, CensusOf(documents, images), all[i].key);
    }
  }
}
