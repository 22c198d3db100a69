/** Keyset pagination of conversations: pages in descending (created_at, id) order, each continued from the
    last row of the one before, over stores that change between the pages. */
module Keyset {
  import opened Basics

  const MAX_CONVERSATION_PAGE_SIZE := 100

  /** `id` stands for the rank of the primary key in the database's order. */
  datatype Row = Row(id: nat, publicRef: string, owner: string, title: Option<string>, createdAt: int, version: nat)

  datatype ListError = ValidationError | CursorExpired

  /** A decoded cursor; text that is not one is Unreadable. */
  datatype Cursor = Cursor(version: int, conversationRef: string) | Unreadable

  datatype Page = Page(rows: seq<Row>, next: Option<Cursor>)

  // ------------------------------------------------------------------------ order

  /** r comes after s in a listing: it was created earlier, or at the same time with a smaller id. */
  predicate Below(r: Row, s: Row) {
    r.createdAt < s.createdAt || (r.createdAt == s.createdAt && r.id < s.id)
  }

  predicate Descending(rows: seq<Row>) {
    forall i, j :: 0 <= i < j < |rows| ==> Below(rows[j], rows[i])
  }

  predicate IdsUnique(rows: seq<Row>) {
    forall i, j :: 0 <= i < j < |rows| ==> rows[i].id != rows[j].id
  }

  /** Insert a row behind every row it is below. */
  function Placed(row: Row, rows: seq<Row>): (r: seq<Row>)
    ensures |r| == |rows| + 1 && forall x :: x in r <==> x == row || x in rows
  {
    if rows == [] then [row]
    else if Below(row, rows[0]) then [rows[0]] + Placed(row, rows[1..])
    else [row] + rows
  }

  /** ORDER BY created_at DESC, id DESC */
  function OrderBy(rows: seq<Row>): (r: seq<Row>)
    ensures |r| == |rows| && forall x :: x in r <==> x in rows
  {
    if rows == [] then [] else Placed(rows[0], OrderBy(rows[1..]))
  }

  lemma {:induction false} PlacedDescends(row: Row, rows: seq<Row>)
    requires Descending(rows) && forall x :: x in rows ==> x.id != row.id
    ensures Descending(Placed(row, rows))
  {
    if rows != [] && Below(row, rows[0]) {
      PlacedDescends(row, rows[1..]);
      var later := Placed(row, rows[1..]);
      forall j | 0 <= j < |later|
        ensures Below(later[j], rows[0])
      {
        assert later[j] in later;
      }
    }
  }

  lemma {:induction false} OrderDescends(rows: seq<Row>)
    requires IdsUnique(rows)
    ensures Descending(OrderBy(rows))
  {
    if rows != [] {
      OrderDescends(rows[1..]);
      PlacedDescends(rows[0], OrderBy(rows[1..]));
    }
  }

  // ------------------------------------------------------------------------- one page

  /** WHERE owner and, behind an anchor, keyset below it. */
  function Selected(store: seq<Row>, owner: string, anchor: Option<Row>): (rows: seq<Row>)
    ensures forall x :: x in rows <==> x in store && x.owner == owner && (anchor.Some? ==> Below(x, anchor.value))
    ensures |rows| <= |store|
  {
    if store == [] then []
    else
      var keep := store[0].owner == owner && (anchor.Some? ==> Below(store[0], anchor.value));
      (if keep then [store[0]] else []) + Selected(store[1..], owner, anchor)
  }

  lemma {:induction false} SelectedUnique(store: seq<Row>, owner: string, anchor: Option<Row>)
    requires IdsUnique(store)
    ensures IdsUnique(Selected(store, owner, anchor))
  {
    if store != [] {
      SelectedUnique(store[1..], owner, anchor);
      var later := Selected(store[1..], owner, anchor);
      forall j | 0 <= j < |later|
        ensures later[j].id != store[0].id
      {
        assert later[j] in later;
      }
    }
  }

  /** The owner's row with this public reference. */
  function FindAnchor(store: seq<Row>, owner: string, ref: string): (r: Option<Row>)
    ensures r.Some? ==> r.value in store && r.value.owner == owner && r.value.publicRef == ref
  {
    if store == [] then None
    else if store[0].owner == owner && store[0].publicRef == ref then Some(store[0])
    else FindAnchor(store[1..], owner, ref)
  }

  function EncodeCursor(row: Row): Cursor {
    Cursor(1, row.publicRef)
  }

  function CursorOf(last: Option<Row>): Option<Cursor> {
    if last.Some? then Some(EncodeCursor(last.value)) else None
  }

  function DecodeCursor(cursor: Cursor): Result<string, ListError> {
    if cursor.Cursor? && cursor.version == 1 && "conv_" <= cursor.conversationRef then Success(cursor.conversationRef)
    else Failure(CursorExpired)
  }

  function Take(rows: seq<Row>, n: nat): seq<Row> {
    if |rows| <= n then rows else rows[..n]
  }

  function PageFrom(ordered: seq<Row>, limit: nat): Page {
    var rows := Take(ordered, limit + 1);
    var pageRows := Take(rows, limit);
    Page(pageRows, if |rows| > limit && pageRows != [] then Some(EncodeCursor(pageRows[|pageRows| - 1])) else None)
  }

  /** The page behind an anchor: one row more than asked for tells whether there is a next page. */
  function PageBehind(store: seq<Row>, owner: string, anchor: Option<Row>, limit: nat): Page {
    PageFrom(OrderBy(Selected(store, owner, anchor)), limit)
  }

  /** list_conversations */
  function ListConversations(store: seq<Row>, owner: string, cursor: Option<Cursor>, limit: int): Result<Page, ListError> {
    if !(1 <= limit <= MAX_CONVERSATION_PAGE_SIZE) then Failure(ValidationError)
    else if cursor.None? then Success(PageBehind(store, owner, None, limit))
    else
      var ref := DecodeCursor(cursor.value);
      if ref.Failure? then Failure(ref.error)
      else
        var anchor := FindAnchor(store, owner, ref.value);
        if anchor.None? then Failure(CursorExpired) else Success(PageBehind(store, owner, anchor, limit))
  }

  predicate Qualifies(x: Row, owner: string, anchor: Option<Row>) {
    x.owner == owner && (anchor.Some? ==> Below(x, anchor.value))
  }

  /** On the page, or left for the next one. */
  predicate Reached(x: Row, page: Page) {
    x in page.rows || (page.next.Some? && page.rows != [] && Below(x, page.rows[|page.rows| - 1]))
  }

  /** The page is the top of what qualifies in the store: all of it if there is no next page, else down to its
      last row, which the next cursor names. */
  predicate TopOf(page: Page, store: seq<Row>, owner: string, anchor: Option<Row>) {
    && Descending(page.rows)
    && (forall x :: x in page.rows ==> x in store && Qualifies(x, owner, anchor))
    && (page.next.Some? ==> page.rows != [] && page.next == CursorOf(Some(page.rows[|page.rows| - 1])))
    && (forall x :: x in store && Qualifies(x, owner, anchor) ==> Reached(x, page))
  }

  /** No longer than asked for, and no shorter unless it is the last. */
  predicate Filled(page: Page, limit: int) {
    |page.rows| <= limit && (page.next.Some? ==> |page.rows| == limit)
  }

  lemma CutPage(all: seq<Row>, limit: nat)
    requires Descending(all) && limit >= 1
    ensures var rows := Take(all, limit);
      && Descending(rows) && |rows| <= limit && Take(Take(all, limit + 1), limit) == rows
      && (|Take(all, limit + 1)| > limit ==> rows != [])
      && (forall x :: x in rows ==> x in all)
      && (forall x :: x in all ==> x in rows || (|Take(all, limit + 1)| > limit && Below(x, rows[|rows| - 1])))
  {
    var rows := Take(all, limit);
    forall x | x in all
      ensures x in rows || (|Take(all, limit + 1)| > limit && Below(x, rows[|rows| - 1]))
    {
      var i :| 0 <= i < |all| && all[i] == x;
      if i < limit { assert rows[i] == x; }
    }
  }

  lemma PageFromTop(all: seq<Row>, limit: nat, store: seq<Row>, owner: string, anchor: Option<Row>)
    requires limit >= 1 && Descending(all)
    requires forall x :: x in all <==> x in store && Qualifies(x, owner, anchor)
    ensures TopOf(PageFrom(all, limit), store, owner, anchor) && Filled(PageFrom(all, limit), limit)
  {
    CutPage(all, limit);
  }

  lemma PageExact(store: seq<Row>, owner: string, anchor: Option<Row>, limit: nat)
    requires IdsUnique(store) && limit >= 1
    ensures TopOf(PageBehind(store, owner, anchor, limit), store, owner, anchor)
    ensures Filled(PageBehind(store, owner, anchor, limit), limit)
  {
    SelectedUnique(store, owner, anchor);
    OrderDescends(Selected(store, owner, anchor));
    PageFromTop(OrderBy(Selected(store, owner, anchor)), limit, store, owner, anchor);
  }

  // --------------------------------------------------------------- following a cursor

  /** The cursor a page hands out reads back as its last row's public reference. */
  lemma CursorReadsBack(row: Row)
    requires "conv_" <= row.publicRef
    ensures DecodeCursor(EncodeCursor(row)) == Success(row.publicRef)
  {
  }

  lemma {:induction false} AnchorFound(store: seq<Row>, owner: string, ref: string)
    ensures FindAnchor(store, owner, ref).Some? <==> exists r :: r in store && r.owner == owner && r.publicRef == ref
  {
    if store != [] {
      AnchorFound(store[1..], owner, ref);
      if exists r :: r in store && r.owner == owner && r.publicRef == ref {
        var r :| r in store && r.owner == owner && r.publicRef == ref;
        assert r == store[0] || r in store[1..];
      }
    }
  }

  /** The cursor names a conversation that the owner has in this store. */
  predicate Followable(store: seq<Row>, owner: string, cursor: Cursor) {
    && cursor.Cursor? && cursor.version == 1
    && |cursor.conversationRef| >= 5 && cursor.conversationRef[..5] == "conv_"
    && exists r :: r in store && r.owner == owner && r.publicRef == cursor.conversationRef
  }

  /** A listing is refused for its limit exactly when that is not between 1 and 100, and with such a limit for
      its cursor exactly when the cursor cannot be read or its conversation is gone. */
  lemma {:induction false} RefusedExactly(store: seq<Row>, owner: string, cursor: Option<Cursor>, limit: int)
    ensures var r := ListConversations(store, owner, cursor, limit);
      && (r == Failure(ValidationError) <==> limit < 1 || limit > 100)
      && (r == Failure(CursorExpired) <==> 1 <= limit <= 100 && cursor.Some? && !Followable(store, owner, cursor.value))
  {
    if cursor.Some? && cursor.value.Cursor? {
      AnchorFound(store, owner, cursor.value.conversationRef);
    }
  }

  predicate SameKey(r: Row, s: Row) { r.id == s.id && r.createdAt == s.createdAt }

  predicate InStore(row: Row, store: seq<Row>) {
    exists r :: r in store && r.publicRef == row.publicRef && r.owner == row.owner && SameKey(r, row)
  }

  lemma {:induction false} SelectedSame(store: seq<Row>, owner: string, r: Row, s: Row)
    requires SameKey(r, s)
    ensures Selected(store, owner, Some(r)) == Selected(store, owner, Some(s))
  {
    if store != [] { SelectedSame(store[1..], owner, r, s); }
  }

  /** A next cursor can be followed in every store that still holds its row, whatever else has changed there:
      the answer is the top of what lies below that row. */
  lemma {:induction false} CursorFollows(store: seq<Row>, owner: string, last: Row, limit: int)
    requires IdsUnique(store) && 1 <= limit <= 100
    requires last.owner == owner && "conv_" <= last.publicRef && InStore(last, store)
    requires forall s :: s in store && s.publicRef == last.publicRef ==> SameKey(s, last)
    ensures var r := ListConversations(store, owner, CursorOf(Some(last)), limit);
      && r == Success(PageBehind(store, owner, Some(last), limit))
      && TopOf(r.value, store, owner, Some(last)) && Filled(r.value, limit)
  {
    CursorReadsBack(last);
    AnchorFound(store, owner, last.publicRef);
    var anchor := FindAnchor(store, owner, last.publicRef).value;
    SelectedSame(store, owner, anchor, last);
    PageExact(store, owner, Some(last), limit);
  }

  // -------------------------------------------------------------------------- a walk

  /** One request of a walk: the store it meets and the limit it asks for. */
  datatype Visit = Visit(store: seq<Row>, limit: int)

  /** Follow next cursors until there is none; anything else is not a completed walk. */
  function Walk(visits: seq<Visit>, owner: string, cursor: Option<Cursor>): Option<seq<Row>> {
    if visits == [] then None
    else
      var page := ListConversations(visits[0].store, owner, cursor, visits[0].limit);
      if page.Failure? then None
      else if page.value.next.None? then (if |visits| == 1 then Some(page.value.rows) else None)
      else
        var rest := Walk(visits[1..], owner, page.value.next);
        if rest.None? then None else Some(page.value.rows + rest.value)
  }

  /** Wherever the row's public reference is seen, it has the row's key. */
  predicate KeyKept(row: Row, visits: seq<Visit>) {
    forall v, s :: v in visits && s in v.store && s.publicRef == row.publicRef ==> SameKey(s, row)
  }

  /** Between the visits anything may be created, deleted or renamed; only ids are unique in every store and
      a conversation's key is fixed for as long as its public reference is seen. */
  predicate KeysFixed(visits: seq<Visit>) {
    && (forall v :: v in visits ==> IdsUnique(v.store))
    && (forall v, r :: v in visits && r in v.store ==> KeyKept(r, visits))
  }

  /** The conversation, whatever its title and version, is there at every visit. */
  predicate Throughout(row: Row, visits: seq<Visit>) {
    forall v :: v in visits ==> InStore(row, v.store)
  }

  predicate Lists(rows: seq<Row>, row: Row) {
    exists r :: r in rows && r.publicRef == row.publicRef
  }

  /** What a walk that continues behind `anchor` returns. */
  ghost predicate WalkedBehind(rows: seq<Row>, visits: seq<Visit>, owner: string, anchor: Option<Row>) {
    && Descending(rows)
    && (forall r: Row :: r in rows ==> Qualifies(r, owner, anchor))
    && (forall row: Row :: Qualifies(row, owner, anchor) && Throughout(row, visits) ==> Lists(rows, row))
  }

  lemma Continues(page: seq<Row>, rest: seq<Row>, last: Row)
    requires Descending(page) && Descending(rest) && page != [] && last == page[|page| - 1]
    requires forall r :: r in rest ==> Below(r, last)
    ensures Descending(page + rest)
  {
    var rows := page + rest;
    forall i, j | 0 <= i < j < |rows|
      ensures Below(rows[j], rows[i])
    {
      if j >= |page| { assert rows[j] in rest; }
    }
  }

  lemma SameTop(page: Page, store: seq<Row>, owner: string, anchor: Option<Row>, last: Option<Row>)
    requires TopOf(page, store, owner, anchor)
    requires anchor.Some? == last.Some? && (anchor.Some? ==> SameKey(anchor.value, last.value))
    ensures TopOf(page, store, owner, last)
  {
    assert forall x :: Qualifies(x, owner, anchor) == Qualifies(x, owner, last);
  }

  /** The first page of a walk that continues behind `last` is the top of its store. */
  lemma FirstPage(visit: Visit, owner: string, last: Option<Row>)
    requires IdsUnique(visit.store) && (last.Some? ==> KeyKept(last.value, [visit]))
    requires ListConversations(visit.store, owner, CursorOf(last), visit.limit).Success?
    ensures TopOf(ListConversations(visit.store, owner, CursorOf(last), visit.limit).value, visit.store, owner, last)
  {
    var anchor := if last.None? then None else FindAnchor(visit.store, owner, last.value.publicRef);
    if last.Some? {
      assert visit in [visit];
      assert SameKey(anchor.value, last.value);
    }
    PageExact(visit.store, owner, anchor, visit.limit);
    SameTop(PageBehind(visit.store, owner, anchor, visit.limit), visit.store, owner, anchor, last);
  }

  lemma FirstKeeps(visits: seq<Visit>, last: Row)
    requires visits != [] && KeyKept(last, visits)
    ensures KeyKept(last, [visits[0]])
  {
    assert visits[0] in visits;
  }

  lemma RestKeeps(visits: seq<Visit>, last: Row)
    requires KeysFixed(visits) && |visits| > 1 && last in visits[0].store
    ensures KeysFixed(visits[1..]) && KeyKept(last, visits[1..])
  {
    assert visits[0] in visits && KeyKept(last, visits);
    assert forall v :: v in visits[1..] ==> v in visits;
    forall v, r | v in visits[1..] && r in v.store
      ensures KeyKept(r, visits[1..])
    {
      assert KeyKept(r, visits);
    }
  }

  lemma LastPage(visits: seq<Visit>, owner: string, last: Option<Row>, page: Page)
    requires |visits| == 1 && TopOf(page, visits[0].store, owner, last) && page.next.None?
    ensures WalkedBehind(page.rows, visits, owner, last)
  {
    assert visits[0] in visits;
    forall row: Row | Qualifies(row, owner, last) && Throughout(row, visits)
      ensures Lists(page.rows, row)
    {
      assert InStore(row, visits[0].store);
    }
  }

  lemma ThroughoutRest(row: Row, visits: seq<Visit>)
    requires visits != [] && Throughout(row, visits)
    ensures InStore(row, visits[0].store) && Throughout(row, visits[1..])
  {
    assert visits[0] in visits;
    assert forall v :: v in visits[1..] ==> v in visits;
  }

  /** A conversation that stays is on this page, or below it and so on a later one. */
  lemma ListedSomewhere(row: Row, visits: seq<Visit>, owner: string, last: Option<Row>, page: Page, rest: seq<Row>)
    requires visits != [] && TopOf(page, visits[0].store, owner, last) && page.next.Some?
    requires WalkedBehind(rest, visits[1..], owner, Some(page.rows[|page.rows| - 1]))
    requires Qualifies(row, owner, last) && Throughout(row, visits)
    ensures Lists(page.rows + rest, row)
  {
    ThroughoutRest(row, visits);
    var r :| r in visits[0].store && r.publicRef == row.publicRef && r.owner == row.owner && SameKey(r, row);
    assert SameKey(r, row);
    assert last.Some? ==> Below(row, last.value);
    assert last.Some? ==> Below(r, last.value);
    assert Qualifies(r, owner, last) && Reached(r, page);
    if r in page.rows {
      assert r in page.rows + rest;
    } else {
      assert Lists(rest, row);
      var s :| s in rest && s.publicRef == row.publicRef;
      assert s in page.rows + rest;
    }
  }

  lemma MorePages(visits: seq<Visit>, owner: string, last: Option<Row>, page: Page, rest: seq<Row>)
    requires visits != [] && TopOf(page, visits[0].store, owner, last) && page.next.Some?
    requires WalkedBehind(rest, visits[1..], owner, Some(page.rows[|page.rows| - 1]))
    ensures WalkedBehind(page.rows + rest, visits, owner, last)
  {
    var newLast := page.rows[|page.rows| - 1];
    Continues(page.rows, rest, newLast);
    assert newLast in page.rows;
    forall row: Row | Qualifies(row, owner, last) && Throughout(row, visits)
      ensures Lists(page.rows + rest, row)
    {
      ListedSomewhere(row, visits, owner, last, page, rest);
    }
  }

  /** The last row of a page, behind which the walk continues. */
  lemma LastListed(visits: seq<Visit>, owner: string, last: Option<Row>, page: Page) returns (newLast: Row)
    requires KeysFixed(visits) && |visits| > 1 && TopOf(page, visits[0].store, owner, last) && page.next.Some?
    ensures page.next == CursorOf(Some(newLast)) && newLast == page.rows[|page.rows| - 1]
    ensures KeysFixed(visits[1..]) && KeyKept(newLast, visits[1..])
  {
    newLast := page.rows[|page.rows| - 1];
    assert newLast in page.rows;
    RestKeeps(visits, newLast);
  }

  lemma {:induction false} WalkBehind(visits: seq<Visit>, owner: string, last: Option<Row>)
    requires KeysFixed(visits) && (last.Some? ==> KeyKept(last.value, visits))
    requires Walk(visits, owner, CursorOf(last)).Some?
    ensures WalkedBehind(Walk(visits, owner, CursorOf(last)).value, visits, owner, last)
  {
    assert visits[0] in visits;
    if last.Some? { FirstKeeps(visits, last.value); }
    FirstPage(visits[0], owner, last);
    var page := ListConversations(visits[0].store, owner, CursorOf(last), visits[0].limit).value;
    if page.next.None? {
      LastPage(visits, owner, last, page);
    } else {
      var newLast := LastListed(visits, owner, last, page);
      WalkBehind(visits[1..], owner, Some(newLast));
      MorePages(visits, owner, last, page, Walk(visits[1..], owner, page.next).value);
    }
  }

  /** A walk from the start to the end, over stores that change in between, lists conversations of this
      owner only, in strictly descending order (so none twice), among them every one that was there
      throughout. */
  lemma CompletedWalk(visits: seq<Visit>, owner: string)
    requires KeysFixed(visits) && Walk(visits, owner, None).Some?
    ensures var rows := Walk(visits, owner, None).value;
      && Descending(rows) && (forall r :: r in rows ==> r.owner == owner)
      && forall row: Row :: row.owner == owner && Throughout(row, visits) ==> Lists(rows, row)
  {
    WalkBehind(visits, owner, None);
  }

  // --------------------------------------------------------------------- a walk that ends

  datatype Key = Key(id: nat, createdAt: int)

  function KeyOf(row: Row): Key { Key(row.id, row.createdAt) }

  /** Every row of this owner that any visit meets has one of these keys. */
  predicate KeysFrom(visits: seq<Visit>, owner: string, keys: set<Key>) {
    forall v, r :: v in visits && r in v.store && r.owner == owner ==> KeyOf(r) in keys
  }

  predicate KeyBelow(k: Key, last: Option<Row>) {
    last.Some? ==> k.createdAt < last.value.createdAt || (k.createdAt == last.value.createdAt && k.id < last.value.id)
  }

  function KeysBelow(keys: set<Key>, last: Option<Row>): set<Key> {
    set k | k in keys && KeyBelow(k, last)
  }

  /** At every visit the conversation that ended the page before is still there. */
  predicate AnchorsStay(visits: seq<Visit>, owner: string, last: Option<Row>)
    decreases |visits|
  {
    visits == [] ||
    ((last.Some? ==> InStore(last.value, visits[0].store)) &&
     (visits[0].limit >= 1 ==>
       var page := PageBehind(visits[0].store, owner, last, visits[0].limit);
       page.next.Some? && page.rows != [] ==> AnchorsStay(visits[1..], owner, Some(page.rows[|page.rows| - 1]))))
  }

  /** Every request asks for a page of an admitted size, and conversations are named as the service names them. */
  predicate WellAsked(visits: seq<Visit>) {
    && (forall v :: v in visits ==> 1 <= v.limit <= 100)
    && (forall v, r :: v in visits && r in v.store ==> "conv_" <= r.publicRef)
  }

  /** The first page of such a walk. */
  lemma FirstAnswer(visits: seq<Visit>, owner: string, last: Option<Row>)
    requires visits != [] && KeysFixed(visits) && WellAsked(visits) && AnchorsStay(visits, owner, last)
    requires last.Some? ==> last.value.owner == owner && "conv_" <= last.value.publicRef && KeyKept(last.value, visits)
    ensures var r := ListConversations(visits[0].store, owner, CursorOf(last), visits[0].limit);
      && r == Success(PageBehind(visits[0].store, owner, last, visits[0].limit))
      && TopOf(r.value, visits[0].store, owner, last)
  {
    assert visits[0] in visits;
    if last.Some? {
      CursorFollows(visits[0].store, owner, last.value, visits[0].limit);
    } else {
      PageExact(visits[0].store, owner, None, visits[0].limit);
    }
  }

  lemma {:induction false} SubsetCount<T>(a: set<T>, b: set<T>)
    requires a <= b
    ensures |a| <= |b|
  {
    assert b == a + (b - a);
  }

  lemma FewerKeys(keys: set<Key>, last: Option<Row>, newLast: Row)
    requires KeyOf(newLast) in keys && KeyBelow(KeyOf(newLast), last)
    ensures |KeysBelow(keys, Some(newLast))| < |KeysBelow(keys, last)|
  {
    assert KeyOf(newLast) in KeysBelow(keys, last) && KeyOf(newLast) !in KeysBelow(keys, Some(newLast));
    assert KeysBelow(keys, Some(newLast)) <= KeysBelow(keys, last) - {KeyOf(newLast)};
    SubsetCount(KeysBelow(keys, Some(newLast)), KeysBelow(keys, last) - {KeyOf(newLast)});
  }

  lemma WalkOneMore(visits: seq<Visit>, owner: string, cursor: Option<Cursor>, n: nat)
    requires 0 < n < |visits|
    requires ListConversations(visits[0].store, owner, cursor, visits[0].limit).Success?
    requires ListConversations(visits[0].store, owner, cursor, visits[0].limit).value.next.Some?
    requires Walk(visits[1..][..n], owner, ListConversations(visits[0].store, owner, cursor, visits[0].limit).value.next).Some?
    ensures Walk(visits[..n + 1], owner, cursor).Some?
  {
    assert visits[..n + 1][1..] == visits[1..][..n];
  }

  lemma RestAsked(visits: seq<Visit>, owner: string, keys: set<Key>)
    requires visits != [] && WellAsked(visits) && KeysFrom(visits, owner, keys)
    ensures WellAsked(visits[1..]) && KeysFrom(visits[1..], owner, keys)
  {
    assert forall v :: v in visits[1..] ==> v in visits;
  }

  /** Behind a page that has a next one: its last row, below which fewer keys are left. */
  lemma NextLeg(visits: seq<Visit>, owner: string, last: Option<Row>, keys: set<Key>, page: Page) returns (newLast: Row)
    requires visits != [] && KeysFixed(visits) && WellAsked(visits) && KeysFrom(visits, owner, keys)
    requires TopOf(page, visits[0].store, owner, last) && page.next.Some? && |visits| > |KeysBelow(keys, last)|
    ensures page.rows != [] && newLast == page.rows[|page.rows| - 1] && page.next == CursorOf(Some(newLast)) && |visits| > 1
    ensures newLast.owner == owner && "conv_" <= newLast.publicRef && KeyKept(newLast, visits[1..]) && KeysFixed(visits[1..])
    ensures |visits[1..]| > |KeysBelow(keys, Some(newLast))|
  {
    assert visits[0] in visits;
    newLast := page.rows[|page.rows| - 1];
    assert newLast in page.rows && newLast in visits[0].store && KeyOf(newLast) in keys;
    FewerKeys(keys, last, newLast);
    RestKeeps(visits, newLast);
  }

  /** A walk that can go on behind `last`, with more visits than keys left. */
  predicate GoesOn(visits: seq<Visit>, owner: string, last: Option<Row>, keys: set<Key>) {
    && KeysFixed(visits) && WellAsked(visits) && AnchorsStay(visits, owner, last) && KeysFrom(visits, owner, keys)
    && (last.Some? ==> last.value.owner == owner && "conv_" <= last.value.publicRef && KeyKept(last.value, visits))
    && |visits| > |KeysBelow(keys, last)|
  }

  /** One request of it: the walk is over, or goes on behind the page's last row. */
  lemma OneLeg(visits: seq<Visit>, owner: string, last: Option<Row>, keys: set<Key>) returns (newLast: Option<Row>)
    requires GoesOn(visits, owner, last, keys)
    ensures visits != [] && ListConversations(visits[0].store, owner, CursorOf(last), visits[0].limit).Success?
    ensures ListConversations(visits[0].store, owner, CursorOf(last), visits[0].limit).value.next == CursorOf(newLast)
    ensures newLast.Some? ==> |visits| > 1 && GoesOn(visits[1..], owner, newLast, keys)
  {
    FirstAnswer(visits, owner, last);
    var page := PageBehind(visits[0].store, owner, last, visits[0].limit);
    if page.next.None? {
      newLast := None;
    } else {
      var row := NextLeg(visits, owner, last, keys, page);
      RestAsked(visits, owner, keys);
      newLast := Some(row);
    }
  }

  lemma {:induction false} EndsBehind(visits: seq<Visit>, owner: string, last: Option<Row>, keys: set<Key>) returns (n: nat)
    requires GoesOn(visits, owner, last, keys)
    ensures 0 < n <= |visits| && Walk(visits[..n], owner, CursorOf(last)).Some?
    decreases |visits|
  {
    var newLast := OneLeg(visits, owner, last, keys);
    if newLast.None? {
      n := 1;
    } else {
      var more := EndsBehind(visits[1..], owner, newLast, keys);
      n := more + 1;
      WalkOneMore(visits, owner, CursorOf(last), more);
    }
  }

  /** A walk ends: over stores that keep the conversation each page ended with, more visits than the owner's
      conversations ever have keys are enough to reach a page without a next cursor. */
  lemma {:induction false} WalkEnds(visits: seq<Visit>, owner: string, keys: set<Key>) returns (n: nat)
    requires KeysFixed(visits) && WellAsked(visits) && AnchorsStay(visits, owner, None) && KeysFrom(visits, owner, keys)
    requires |visits| > |keys|
    ensures 0 < n <= |visits| && Walk(visits[..n], owner, None).Some?
  {
    assert KeysBelow(keys, None) == keys;
    n := EndsBehind(visits, owner, None, keys);
  }
}
