/** The digest over all manifest entries: it does not depend on their order, and it tells apart any two
    manifests that differ in a key or a content hash. `textHash` is SHA-256 of the text. */
module TreeDigest {
  import opened Basics
  import opened Ordering
  import opened Census
  import opened Backup

  function TreeLine(e: Entry): string {
    e.key + ":" + Lower(e.contentSha)
  }

  function TreeLines(entries: seq<Entry>): (lines: seq<string>)
    ensures |lines| == |entries| && forall i :: 0 <= i < |entries| ==> lines[i] == TreeLine(entries[i])
  {
    if entries == [] then [] else TreeLines(entries[..|entries| - 1]) + [TreeLine(entries[|entries| - 1])]
  }

  function TreeText(entries: seq<Entry>): string {
    JoinLines(TreeLines(SortBy(entries, EntryKey())))
  }

  /** manifest_object_tree_digest */
  method ManifestObjectTreeDigest(entries: seq<Entry>, textHash: string -> string) returns (digest: string)
    ensures digest == textHash(TreeText(entries))
  {
    var sorted := SortBy(entries, EntryKey());
    var lines: seq<string> := [];
    for i := 0 to |sorted|
      invariant lines == TreeLines(sorted[..i])
    {
      assert sorted[..i + 1][..i] == sorted[..i];
      lines := lines + [sorted[i].key + ":" + Lower(sorted[i].contentSha)];
    }
    assert sorted[..|sorted|] == sorted;
    return textHash(JoinLines(lines));
  }

  datatype DigestFailure = DigestMissing | DigestMismatch

  function DigestFailureOf(entries: seq<Entry>, recorded: string, textHash: string -> string): Option<DigestFailure> {
    if Lower(Strip(recorded)) == "" then Some(DigestMissing)
    else if textHash(TreeText(entries)) != Lower(Strip(recorded)) then Some(DigestMismatch)
    else None
  }

  /** verify_object_tree_digest */
  method VerifyObjectTreeDigest(entries: seq<Entry>, recorded: string, textHash: string -> string) returns (r: Option<DigestFailure>)
    ensures r == DigestFailureOf(entries, recorded, textHash)
    ensures r.None? <==> Strip(recorded) != "" && Lower(Strip(recorded)) == textHash(TreeText(entries))
  {
    var expected := Lower(Strip(recorded));
    if expected == "" {
      return Some(DigestMissing);
    }
    var actual := ManifestObjectTreeDigest(entries, textHash);
    if actual != expected {
      return Some(DigestMismatch);
    }
    return None;
  }

  // --------------------------------------------------------------------- manifest

  /** The consistency manifest of a backup, as far as its objects are concerned. */
  datatype Manifest = Manifest(storeKind: string, objectCount: nat, objectTreeDigest: string, objects: seq<Entry>)

  function ManifestFrom(storeKind: string, entries: seq<Entry>, textHash: string -> string): Manifest {
    var sorted := SortBy(entries, EntryKey());
    Manifest(Lower(Strip(storeKind)), |sorted|, textHash(TreeText(sorted)), sorted)
  }

  /** build_consistency_manifest */
  method BuildConsistencyManifest(storeKind: string, entries: seq<Entry>, textHash: string -> string) returns (m: Manifest)
    ensures m == ManifestFrom(storeKind, entries, textHash)
  {
    var sorted := SortBy(entries, EntryKey());
    var digest := ManifestObjectTreeDigest(sorted, textHash);
    m := Manifest(Lower(Strip(storeKind)), |sorted|, digest, sorted);
  }

  /** What is assumed of a recorded digest's text: it is not blank, and normalization leaves it alone. */
  ghost predicate DigestText(textHash: string -> string) {
    forall x :: textHash(x) != "" && Lower(Strip(textHash(x))) == textHash(x)
  }

  lemma HeadOnce(entries: seq<Entry>)
    requires KeysDiffer(entries, EntryKey()) && entries != []
    ensures entries[0] !in entries[1..]
  {
    forall j | 0 <= j < |entries| - 1
      ensures entries[1..][j] != entries[0]
    {
      assert EntryKey()(entries[0]) != EntryKey()(entries[j + 1]);
    }
  }

  lemma {:induction false} OnceEach(entries: seq<Entry>, e: Entry)
    requires KeysDiffer(entries, EntryKey())
    ensures multiset(entries)[e] <= 1
  {
    if entries != [] {
      OnceEach(entries[1..], e);
      HeadOnce(entries);
      assert entries == [entries[0]] + entries[1..];
    }
  }

  lemma TwiceListed(listed: seq<Entry>, i: nat, j: nat)
    requires i < j < |listed| && listed[i] == listed[j]
    ensures multiset(listed)[listed[i]] >= 2
  {
    var before, from := listed[..j], listed[j..];
    assert listed == before + from;
    assert before[i] == listed[i] && from[0] == listed[i];
    assert listed[i] in multiset(before) && listed[i] in multiset(from);
  }

  /** Distinct keys stay distinct in every order. */
  lemma KeysDifferInAnyOrder(entries: seq<Entry>, listed: seq<Entry>)
    requires KeysDiffer(entries, EntryKey()) && multiset(listed) == multiset(entries)
    ensures KeysDiffer(listed, EntryKey())
  {
    forall i, j | 0 <= i < j < |listed|
      ensures EntryKey()(listed[i]) != EntryKey()(listed[j])
    {
      assert listed[i] in multiset(entries) && listed[j] in multiset(entries);
      if listed[i] == listed[j] {
        TwiceListed(listed, i, j);
        OnceEach(entries, listed[i]);
      } else {
        var k :| 0 <= k < |entries| && entries[k] == listed[i];
        var l :| 0 <= l < |entries| && entries[l] == listed[j];
        assert k != l;
      }
    }
  }

  /** Listing the same objects in another order changes nothing. */
  lemma OrderForgotten(entries: seq<Entry>, others: seq<Entry>)
    requires multiset(entries) == multiset(others) && KeysDiffer(entries, EntryKey()) && KeysDiffer(others, EntryKey())
    ensures TreeText(entries) == TreeText(others)
  {
    SortCanonical(entries, others, EntryKey());
  }

  /** The digest that a manifest records verifies, in whatever order its objects are listed. */
  lemma RecordedDigestVerifies(storeKind: string, entries: seq<Entry>, listed: seq<Entry>, textHash: string -> string)
    requires DigestText(textHash) && KeysDiffer(entries, EntryKey()) && multiset(listed) == multiset(entries)
    ensures DigestFailureOf(listed, ManifestFrom(storeKind, entries, textHash).objectTreeDigest, textHash) == None
  {
    var sorted := SortBy(entries, EntryKey());
    KeysDifferInAnyOrder(entries, listed);
    KeysDifferInAnyOrder(entries, sorted);
    OrderForgotten(listed, sorted);
  }

  // ---------------------------------------------------------------- reading a text back

  predicate Free(s: string, c: char) {
    forall i :: 0 <= i < |s| ==> s[i] != c
  }

  /** The length of what follows the last `c`. */
  function TailLength(s: string, c: char): nat {
    if s == "" || s[|s| - 1] == c then 0 else 1 + TailLength(s[..|s| - 1], c)
  }

  lemma {:induction false} TailBehind(head: string, c: char, tail: string)
    requires Free(tail, c)
    ensures TailLength(head + [c] + tail, c) == |tail|
  {
    var s := head + [c] + tail;
    if tail != "" {
      TailBehind(head, c, tail[..|tail| - 1]);
      assert s[..|s| - 1] == head + [c] + tail[..|tail| - 1];
    }
  }

  /** The last `c` of a text is in one place. */
  lemma SplitUnique(head: string, tail: string, otherHead: string, otherTail: string, c: char)
    requires Free(tail, c) && Free(otherTail, c)
    requires head + [c] + tail == otherHead + [c] + otherTail
    ensures head == otherHead && tail == otherTail
  {
    TailBehind(head, c, tail);
    TailBehind(otherHead, c, otherTail);
    var s := head + [c] + tail;
    assert |head| == |otherHead|;
    assert s[..|head|] == head && s[..|head|] == otherHead;
    assert s[|head| + 1..] == tail && s[|head| + 1..] == otherTail;
  }

  predicate Readable(line: string) { line != "" && Free(line, '\n') }

  lemma {:induction false} FreeTail(s: string, c: char)
    requires Free(s, c)
    ensures TailLength(s, c) == |s|
  {
    if s != "" {
      FreeTail(s[..|s| - 1], c);
    }
  }

  /** A text of several lines has a newline in it, so it is not one line. */
  lemma SeveralLines(lines: seq<string>)
    requires |lines| > 1 && forall i :: 0 <= i < |lines| ==> Readable(lines[i])
    ensures JoinLines(lines) == JoinLines(lines[..|lines| - 1]) + ['\n'] + lines[|lines| - 1]
    ensures TailLength(JoinLines(lines), '\n') < |JoinLines(lines)|
  {
    TailBehind(JoinLines(lines[..|lines| - 1]), '\n', lines[|lines| - 1]);
  }

  lemma OneLineText(lines: seq<string>)
    requires |lines| <= 1 && forall i :: 0 <= i < |lines| ==> Readable(lines[i])
    ensures TailLength(JoinLines(lines), '\n') == |JoinLines(lines)|
    ensures lines == if JoinLines(lines) == "" then [] else [JoinLines(lines)]
  {
    FreeTail(JoinLines(lines), '\n');
  }

  /** Joined lines can be told apart. */
  lemma {:induction false} JoinInjective(lines: seq<string>, others: seq<string>)
    requires forall i :: 0 <= i < |lines| ==> Readable(lines[i])
    requires forall i :: 0 <= i < |others| ==> Readable(others[i])
    requires JoinLines(lines) == JoinLines(others)
    ensures lines == others
  {
    if |lines| > 1 { SeveralLines(lines); } else { OneLineText(lines); }
    if |others| > 1 { SeveralLines(others); } else { OneLineText(others); }
    if |lines| > 1 {
      var n, m := |lines| - 1, |others| - 1;
      SplitUnique(JoinLines(lines[..n]), lines[n], JoinLines(others[..m]), others[m], '\n');
      JoinInjective(lines[..n], others[..m]);
      assert lines == lines[..n] + [lines[n]] && others == others[..m] + [others[m]];
    }
  }

  /** A key is one line, and a hash has neither colon nor newline in it. */
  predicate Plain(e: Entry) {
    Free(e.key, '\n') && Free(Lower(e.contentSha), ':') && Free(Lower(e.contentSha), '\n')
  }

  predicate SameContent(e: Entry, f: Entry) {
    e.key == f.key && Lower(e.contentSha) == Lower(f.contentSha)
  }

  lemma PlainLine(e: Entry)
    requires Plain(e)
    ensures Readable(TreeLine(e))
  {
  }

  lemma ReadableLines(entries: seq<Entry>)
    requires forall i :: 0 <= i < |entries| ==> Plain(entries[i])
    ensures forall i :: 0 <= i < |entries| ==> Readable(TreeLines(entries)[i])
  {
    forall i | 0 <= i < |entries|
      ensures Readable(TreeLines(entries)[i])
    {
      PlainLine(entries[i]);
    }
  }

  lemma SameLine(e: Entry, f: Entry)
    requires Plain(e) && Plain(f) && TreeLine(e) == TreeLine(f)
    ensures SameContent(e, f)
  {
    SplitUnique(e.key, Lower(e.contentSha), f.key, Lower(f.contentSha), ':');
  }

  lemma {:induction false} SameLines(a: seq<Entry>, b: seq<Entry>)
    requires (forall i :: 0 <= i < |a| ==> Plain(a[i])) && (forall i :: 0 <= i < |b| ==> Plain(b[i]))
    requires JoinLines(TreeLines(a)) == JoinLines(TreeLines(b))
    ensures |a| == |b| && forall i :: 0 <= i < |a| ==> SameContent(a[i], b[i])
  {
    ReadableLines(a);
    ReadableLines(b);
    JoinInjective(TreeLines(a), TreeLines(b));
    forall i | 0 <= i < |a|
      ensures SameContent(a[i], b[i])
    {
      assert TreeLine(a[i]) == TreeLines(a)[i] == TreeLines(b)[i] == TreeLine(b[i]);
      SameLine(a[i], b[i]);
    }
  }

  lemma SortedPlain(entries: seq<Entry>, sorted: seq<Entry>)
    requires (forall e :: e in entries ==> Plain(e)) && sorted == SortBy(entries, EntryKey())
    ensures forall i :: 0 <= i < |sorted| ==> Plain(sorted[i])
  {
    SortKeeps(entries, EntryKey());
    forall i | 0 <= i < |sorted|
      ensures Plain(sorted[i])
    {
      assert sorted[i] in entries;
    }
  }

  /** With a collision-free hash, equal digests mean the same keys with the same content hashes. */
  lemma {:induction false} EqualDigests(entries: seq<Entry>, others: seq<Entry>, textHash: string -> string)
    requires forall x, y :: textHash(x) == textHash(y) ==> x == y
    requires (forall e :: e in entries ==> Plain(e)) && (forall e :: e in others ==> Plain(e))
    requires textHash(TreeText(entries)) == textHash(TreeText(others))
    ensures var a, b := SortBy(entries, EntryKey()), SortBy(others, EntryKey());
      |a| == |b| && forall i :: 0 <= i < |a| ==> SameContent(a[i], b[i])
  {
    SortedPlain(entries, SortBy(entries, EntryKey()));
    SortedPlain(others, SortBy(others, EntryKey()));
    SameLines(SortBy(entries, EntryKey()), SortBy(others, EntryKey()));
  }

  /** The same keys with the same content hashes, whatever else the entries say. */
  predicate SameContents(a: seq<Entry>, b: seq<Entry>) {
    |a| == |b| && forall i :: 0 <= i < |a| ==> SameContent(a[i], b[i])
  }

  lemma {:induction false} SameContentsLines(a: seq<Entry>, b: seq<Entry>)
    requires SameContents(a, b)
    ensures TreeLines(a) == TreeLines(b)
  {
    if a != [] {
      SameContentsLines(a[..|a| - 1], b[..|b| - 1]);
      assert SameContent(a[|a| - 1], b[|b| - 1]);
    }
  }

  /** Tampering is found: against the digest that a manifest recorded, other entries verify exactly when they
      name the same keys with the same content hashes; otherwise the mismatch is reported. */
  lemma {:induction false} TamperingIsFound(storeKind: string, entries: seq<Entry>, others: seq<Entry>, textHash: string -> string)
    requires DigestText(textHash) && forall x, y :: textHash(x) == textHash(y) ==> x == y
    requires (forall e :: e in entries ==> Plain(e)) && (forall e :: e in others ==> Plain(e))
    requires KeysDiffer(entries, EntryKey())
    ensures DigestFailureOf(others, ManifestFrom(storeKind, entries, textHash).objectTreeDigest, textHash) ==
      if SameContents(SortBy(others, EntryKey()), SortBy(entries, EntryKey())) then None else Some(DigestMismatch)
  {
    var sorted := SortBy(entries, EntryKey());
    SortKeeps(entries, EntryKey());
    KeysDifferInAnyOrder(entries, sorted);
    OrderForgotten(sorted, entries);
    assert ManifestFrom(storeKind, entries, textHash).objectTreeDigest == textHash(TreeText(entries));
    if textHash(TreeText(others)) == textHash(TreeText(entries)) {
      EqualDigests(others, entries, textHash);
    }
    if SameContents(SortBy(others, EntryKey()), sorted) {
      SameContentsLines(SortBy(others, EntryKey()), sorted);
    }
  }

  lemma OneEntry(e: Entry)
    ensures TreeText([e]) == TreeLine(e)
  {
    assert SortBy([e], EntryKey()) == [e];
    assert TreeLines([e]) == [TreeLine(e)];
  }

  lemma TwoEntries(e: Entry, f: Entry)
    requires Less(e.key, f.key)
    ensures TreeText([e, f]) == TreeLine(e) + "\n" + TreeLine(f)
  {
    assert [e, f][1..] == [f] && SortBy([f], EntryKey()) == [f];
    assert SortBy([e, f], EntryKey()) == Placed(e, [f], EntryKey());
    LessTotal(e.key, f.key);
    assert SortBy([e, f], EntryKey()) == [e, f];
    var lines := [TreeLine(e), TreeLine(f)];
    assert TreeLines([e, f]) == lines;
    assert JoinLines([TreeLine(e)]) == TreeLine(e);
    JoinSnoc([TreeLine(e)], TreeLine(f));
    assert [TreeLine(e)] + [TreeLine(f)] == lines;
  }

  // ------------------------------------------------------- keys with newlines in them

  /** A hash with neither colon nor newline in it. */
  predicate PlainHash(e: Entry) {
    Free(Lower(e.contentSha), ':') && Free(Lower(e.contentSha), '\n')
  }

  /** The key reads as a line of its own and the beginning of a later one. */
  predicate SplitsAs(key: string, first: string, hash: string, second: string) {
    key == first + ":" + hash + "\n" + second && Free(hash, ':') && Free(hash, '\n') && Lower(hash) == hash && Less(first, second)
  }

  ghost predicate Splits(key: string) {
    exists first, hash, second :: SplitsAs(key, first, hash, second)
  }

  /** The same text lists several other entries. */
  predicate AlsoLists(f: Entry, others: seq<Entry>) {
    && |others| >= 2 && KeysDiffer(others, EntryKey()) && (forall e :: e in others ==> PlainHash(e))
    && TreeText(others) == TreeText([f])
  }

  ghost predicate Ambiguous(f: Entry) {
    exists others :: AlsoLists(f, others)
  }

  lemma {:induction false} LessExtends(a: string, b: string, more: string)
    requires Less(a, b)
    ensures Less(a, b + more)
  {
    if a != "" {
      assert (b + more)[1..] == b[1..] + more;
      if a[0] == b[0] { LessExtends(a[1..], b[1..], more); }
    }
  }

  lemma {:induction false} JoinCons(lines: seq<string>)
    requires |lines| > 1
    ensures JoinLines(lines) == lines[0] + "\n" + JoinLines(lines[1..])
  {
    var n := |lines| - 1;
    if n > 1 {
      JoinCons(lines[..n]);
      assert lines[..n][1..] == lines[1..][..n - 1];
      assert JoinLines(lines[1..]) == JoinLines(lines[1..][..n - 1]) + "\n" + lines[n];
    } else {
      assert lines[1..] == [lines[1]] && lines[..1] == [lines[0]];
    }
  }

  lemma {:induction false} LinesOfTail(entries: seq<Entry>)
    requires entries != []
    ensures TreeLines(entries)[1..] == TreeLines(entries[1..])
  {
  }

  lemma TextCons(entries: seq<Entry>)
    requires |entries| > 1
    ensures JoinLines(TreeLines(entries)) == TreeLine(entries[0]) + "\n" + JoinLines(TreeLines(entries[1..]))
  {
    JoinCons(TreeLines(entries));
    LinesOfTail(entries);
  }

  lemma EightPieces(a: string, b: string, c: string, d: string, e: string, f: string, g: string, h: string)
    ensures a + b + c + d + (e + f + g + h) == a + (b + c + d + e + f) + g + h
    ensures a + b + c + d + (e + f + g + h) == (a + b + c + d + (e + f)) + g + h
  {
  }

  lemma TextSteps(entries: seq<Entry>, rest: string)
    requires |entries| > 1
    requires JoinLines(TreeLines(entries[1..])) == entries[1].key + rest + ":" + Lower(entries[|entries| - 1].contentSha)
    ensures JoinLines(TreeLines(entries)) == entries[0].key + (":" + Lower(entries[0].contentSha) + "\n" + entries[1].key + rest)
                                            + ":" + Lower(entries[|entries| - 1].contentSha)
  {
    TextCons(entries);
    EightPieces(entries[0].key, ":", Lower(entries[0].contentSha), "\n", entries[1].key, rest, ":", Lower(entries[|entries| - 1].contentSha));
  }

  /** What the lines of some entries spell up to the last hash: it begins with the first key. */
  lemma {:induction false} TailText(entries: seq<Entry>) returns (more: string)
    requires entries != []
    ensures JoinLines(TreeLines(entries)) == entries[0].key + more + ":" + Lower(entries[|entries| - 1].contentSha)
  {
    if |entries| == 1 {
      more := "";
      assert TreeLines(entries) == [TreeLine(entries[0])];
    } else {
      var rest := TailText(entries[1..]);
      more := ":" + Lower(entries[0].contentSha) + "\n" + entries[1].key + rest;
      TextSteps(entries, rest);
    }
  }

  /** The text of several entries: the first entry's line, and a later one that begins with the second key. */
  lemma HeadText(entries: seq<Entry>) returns (rest: string)
    requires |entries| > 1
    ensures JoinLines(TreeLines(entries)) ==
      (entries[0].key + ":" + Lower(entries[0].contentSha) + "\n" + (entries[1].key + rest)) + ":" + Lower(entries[|entries| - 1].contentSha)
  {
    rest := TailText(entries[1..]);
    TextCons(entries);
    EightPieces(entries[0].key, ":", Lower(entries[0].contentSha), "\n", entries[1].key, rest, ":", Lower(entries[|entries| - 1].contentSha));
  }

  lemma SortedOthers(f: Entry, others: seq<Entry>, sorted: seq<Entry>)
    requires AlsoLists(f, others) && sorted == SortBy(others, EntryKey())
    ensures |sorted| >= 2 && Less(sorted[0].key, sorted[1].key)
    ensures PlainHash(sorted[0]) && PlainHash(sorted[|sorted| - 1])
    ensures JoinLines(TreeLines(sorted)) == TreeLine(f)
  {
    SortRises(others, EntryKey());
    SortKeeps(others, EntryKey());
    OneEntry(f);
    assert sorted[0] in others && sorted[|sorted| - 1] in others;
    assert Less(EntryKey()(sorted[0]), EntryKey()(sorted[1]));
  }

  lemma {:induction false} LowerTwice(s: string)
    ensures Lower(Lower(s)) == Lower(s)
  {
    if s != "" {
      LowerTwice(s[1..]);
      assert Lower(s)[1..] == Lower(s[1..]);
    }
  }

  /** If a text of one entry lists several others, the key splits. */
  lemma HiddenSplits(f: Entry, others: seq<Entry>)
    requires PlainHash(f) && AlsoLists(f, others)
    ensures Splits(f.key)
  {
    var sorted := SortBy(others, EntryKey());
    SortedOthers(f, others, sorted);
    var rest := HeadText(sorted);
    var hash := Lower(sorted[0].contentSha);
    var head := sorted[0].key + ":" + hash + "\n" + (sorted[1].key + rest);
    SplitUnique(f.key, Lower(f.contentSha), head, Lower(sorted[|sorted| - 1].contentSha), ':');
    LowerTwice(sorted[0].contentSha);
    LessExtends(sorted[0].key, sorted[1].key, rest);
    assert SplitsAs(f.key, sorted[0].key, hash, sorted[1].key + rest);
  }

  lemma SplitLine(f: Entry, first: string, hash: string, second: string)
    requires f.key == first + ":" + hash + "\n" + second && Lower(hash) == hash
    ensures TreeLine(f) == TreeLine(Entry(first, hash, None, None, "")) + "\n" + TreeLine(f.(key := second))
  {
  }

  /** A key that splits hides an entry: its text lists two as well. */
  lemma SplitHides(f: Entry, first: string, hash: string, second: string)
    requires PlainHash(f) && SplitsAs(f.key, first, hash, second)
    ensures AlsoLists(f, [Entry(first, hash, None, None, ""), f.(key := second)])
  {
    var e, g := Entry(first, hash, None, None, ""), f.(key := second);
    LessTotal(first, second);
    OneEntry(f);
    TwoEntries(e, g);
    SplitLine(f, first, hash, second);
  }

  /** Without plain keys equal digests need not mean equal manifests. Exactly the keys that read as a line of
      their own and the beginning of a later one are ambiguous. */
  lemma NewlineHidesEntry(f: Entry)
    requires PlainHash(f)
    ensures Ambiguous(f) <==> Splits(f.key)
  {
    if Ambiguous(f) {
      var others :| AlsoLists(f, others);
      HiddenSplits(f, others);
    }
    if Splits(f.key) {
      var first, hash, second :| SplitsAs(f.key, first, hash, second);
      SplitHides(f, first, hash, second);
    }
  }
}
