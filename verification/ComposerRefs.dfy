/** Single-use composer tokens: normalization, validation, caps and consumption.
    A token's SHA-256 stands for the token itself (a collision-free hash is a renaming), so the table is
    keyed by the token and a request's fingerprint is its token sequence. */
module ComposerRefs {
  import opened Basics
  import opened TurnTypes

  const MAX_COMPOSER_REFS := 25
  const MAX_COMPOSER_REFS_PER_KIND := 4
  const MAX_TOKEN_CHARS := 256

  datatype RefError = ValidationError | RefUnavailable

  datatype Token = Token(
    owner: string, kind: RefKind, targetId: string, domainId: Option<string>,
    safeLabel: Option<string>, safeDescription: Option<string>,
    expiresAt: int, consumedAt: Option<int>)

  type TokenTable = map<string, Token>

  datatype ValidatedRef = ValidatedRef(
    order: nat, kind: RefKind, targetId: string, safeLabel: Option<string>, safeDescription: Option<string>)

  // ------------------------------------------------------------- normalization

  predicate WellFormedToken(token: string) {
    && token != "" && Strip(token) == token && |token| <= MAX_TOKEN_CHARS
    && forall i :: 0 <= i < |token| ==> 33 <= token[i] as int <= 126
  }

  predicate Normalizable(tokens: seq<string>) {
    && |tokens| <= MAX_COMPOSER_REFS
    && (forall i :: 0 <= i < |tokens| ==> WellFormedToken(tokens[i]))
    && NoDuplicates(tokens)
  }

  lemma {:induction false} ElementsCount<T>(s: seq<T>)
    ensures |Elements(s)| <= |s|
  {
    if s != [] {
      ElementsCount(s[..|s| - 1]);
      assert Elements(s) == Elements(s[..|s| - 1]) + {s[|s| - 1]};
    }
  }

  /** A list as long as its set has no duplicates. */
  lemma {:induction false} SameCountDistinct<T>(s: seq<T>)
    requires |Elements(s)| == |s|
    ensures NoDuplicates(s)
  {
    if s != [] {
      var front, last := s[..|s| - 1], s[|s| - 1];
      assert Elements(s) == Elements(front) + {last};
      assert last in front ==> Elements(s) == Elements(front);
      ElementsCount(front);
      SameCountDistinct(front);
      forall i, j | 0 <= i < j < |s|
        ensures s[i] != s[j]
      {
        if j < |front| {
          assert front[i] != front[j];
        } else {
          assert s[i] in front;
        }
      }
    }
  }

  /** The loop of normalize_composer_ref_tokens; the duplicate test compares set and list sizes. */
  method NormalizeTokens(tokens: seq<string>) returns (r: Result<seq<string>, RefError>)
    ensures r == if Normalizable(tokens) then Success(tokens) else Failure(ValidationError)
  {
    if |tokens| > MAX_COMPOSER_REFS {
      return Failure(ValidationError);
    }
    var normalized: seq<string> := [];
    for i := 0 to |tokens|
      invariant normalized == tokens[..i]
      invariant forall k :: 0 <= k < i ==> WellFormedToken(tokens[k])
    {
      var cleaned := Strip(tokens[i]);
      if cleaned == "" || cleaned != tokens[i] || |cleaned| > MAX_TOKEN_CHARS {
        return Failure(ValidationError);
      }
      if exists k :: 0 <= k < |cleaned| && !(33 <= cleaned[k] as int <= 126) {
        return Failure(ValidationError);
      }
      normalized := normalized + [cleaned];
    }
    assert normalized == tokens;
    if |Elements(normalized)| != |normalized| {
      assert !NoDuplicates(tokens) by {
        if NoDuplicates(tokens) { DistinctCount(tokens); }
      }
      return Failure(ValidationError);
    }
    SameCountDistinct(tokens);
    return Success(normalized);
  }

  // ---------------------------------------------------------------- validation

  /** A row that a new turn may use now. */
  predicate Usable(table: TokenTable, owner: string, token: string, now: int) {
    token in table && table[token].owner == owner && table[token].expiresAt > now && table[token].consumedAt.None?
  }

  function KindCount(table: TokenTable, tokens: seq<string>, kind: RefKind): nat
    requires forall i :: 0 <= i < |tokens| ==> tokens[i] in table
  {
    if tokens == [] then 0
    else
      KindCount(table, tokens[..|tokens| - 1], kind) +
      (if table[tokens[|tokens| - 1]].kind == kind then 1 else 0)
  }

  predicate WithinCaps(table: TokenTable, tokens: seq<string>)
    requires forall i :: 0 <= i < |tokens| ==> tokens[i] in table
  {
    forall kind: RefKind :: KindCount(table, tokens, kind) <= MAX_COMPOSER_REFS_PER_KIND
  }

  lemma {:induction false} KindCountGrows(table: TokenTable, tokens: seq<string>, n: nat, kind: RefKind)
    requires forall i :: 0 <= i < |tokens| ==> tokens[i] in table
    requires n <= |tokens|
    ensures KindCount(table, tokens[..n], kind) <= KindCount(table, tokens, kind)
  {
    if n < |tokens| {
      var front := tokens[..|tokens| - 1];
      assert front[..n] == tokens[..n];
      KindCountGrows(table, front, n, kind);
    } else {
      assert tokens[..n] == tokens;
    }
  }

  /** _enforce_ref_caps: a running count per kind, rejecting at the first kind that passes the cap. */
  method EnforceRefCaps(table: TokenTable, tokens: seq<string>) returns (ok: bool)
    requires forall i :: 0 <= i < |tokens| ==> tokens[i] in table
    ensures ok <==> |tokens| <= MAX_COMPOSER_REFS && WithinCaps(table, tokens)
  {
    if |tokens| > MAX_COMPOSER_REFS {
      return false;
    }
    var counts: map<RefKind, nat> := map[];
    for i := 0 to |tokens|
      invariant forall kind: RefKind :: (if kind in counts then counts[kind] else 0) == KindCount(table, tokens[..i], kind)
      invariant WithinCaps(table, tokens[..i])
    {
      assert tokens[..i + 1][..i] == tokens[..i];
      var kind := table[tokens[i]].kind;
      counts := counts[kind := (if kind in counts then counts[kind] else 0) + 1];
      if counts[kind] > MAX_COMPOSER_REFS_PER_KIND {
        KindCountGrows(table, tokens, i + 1, kind);
        return false;
      }
    }
    assert tokens[..|tokens|] == tokens;
    return true;
  }

  /** Whether the row's target may be referenced from this domain. `eligible` is what the lookup of the
      template, source or Evidence row answers. */
  predicate TargetAllowed(token: Token, domainId: Option<string>, eligible: bool) {
    eligible && (token.kind == TemplateRef || (domainId.Some? && token.domainId == domainId))
  }

  function RefOf(token: Token, order: nat): ValidatedRef {
    ValidatedRef(order, token.kind, token.targetId, token.safeLabel, token.safeDescription)
  }

  predicate AllUsable(table: TokenTable, owner: string, tokens: seq<string>, now: int) {
    forall i :: 0 <= i < |tokens| ==> Usable(table, owner, tokens[i], now)
  }

  predicate AllAllowed(table: TokenTable, domainId: Option<string>, tokens: seq<string>, eligible: set<string>)
    requires forall i :: 0 <= i < |tokens| ==> tokens[i] in table
  {
    forall i :: 0 <= i < |tokens| ==> TargetAllowed(table[tokens[i]], domainId, tokens[i] in eligible)
  }

  function RefsOf(table: TokenTable, tokens: seq<string>): seq<ValidatedRef>
    requires forall i :: 0 <= i < |tokens| ==> tokens[i] in table
  {
    seq(|tokens|, i requires 0 <= i < |tokens| => RefOf(table[tokens[i]], i + 1))
  }

  function ValidateTokens(table: TokenTable, owner: string, domainId: Option<string>, tokens: seq<string>,
                          eligible: set<string>, now: int): (r: Result<seq<ValidatedRef>, RefError>)
  {
    if !Normalizable(tokens) then Failure(ValidationError)
    else if !AllUsable(table, owner, tokens, now) then Failure(RefUnavailable)
    else if !WithinCaps(table, tokens) then Failure(ValidationError)
    else if !AllAllowed(table, domainId, tokens, eligible) then Failure(RefUnavailable)
    else Success(RefsOf(table, tokens))
  }

  /** Where in the list the tokens of one kind stand. */
  function OfKind(table: TokenTable, tokens: seq<string>, kind: RefKind): set<nat>
    requires forall i :: 0 <= i < |tokens| ==> tokens[i] in table
  {
    set i: nat | i < |tokens| && table[tokens[i]].kind == kind
  }

  lemma {:induction false} KindCountIs(table: TokenTable, tokens: seq<string>, kind: RefKind)
    requires forall i :: 0 <= i < |tokens| ==> tokens[i] in table
    ensures KindCount(table, tokens, kind) == |OfKind(table, tokens, kind)|
  {
    if tokens != [] {
      var n := |tokens| - 1;
      KindCountIs(table, tokens[..n], kind);
      var front, all := OfKind(table, tokens[..n], kind), OfKind(table, tokens, kind);
      if table[tokens[n]].kind == kind { assert all == front + {n}; } else { assert all == front; }
    }
  }

  lemma PrintableNeedsNoStrip(token: string)
    requires forall i :: 0 <= i < |token| ==> 33 <= token[i] as int <= 126
    ensures Strip(token) == token
  {
  }

  /** A token a new turn may name: printable, on record for this owner, unexpired and unspent, and for a
      source or a piece of Evidence eligible in the turn's own domain. */
  predicate Nameable(table: TokenTable, owner: string, domainId: Option<string>, token: string, eligible: set<string>, now: int) {
    && token != "" && |token| <= 256 && (forall i :: 0 <= i < |token| ==> 33 <= token[i] as int <= 126)
    && token in table && table[token].owner == owner && table[token].expiresAt > now && table[token].consumedAt.None?
    && token in eligible
    && (table[token].kind != TemplateRef ==> domainId.Some? && table[token].domainId == domainId)
  }

  lemma NameableIs(table: TokenTable, owner: string, domainId: Option<string>, token: string, eligible: set<string>, now: int)
    ensures Nameable(table, owner, domainId, token, eligible, now) <==>
      WellFormedToken(token) && Usable(table, owner, token, now) && TargetAllowed(table[token], domainId, token in eligible)
  {
    if forall i :: 0 <= i < |token| ==> 33 <= token[i] as int <= 126 { PrintableNeedsNoStrip(token); }
  }

  /** Which token lists a start may use: at most 25 distinct nameable tokens, at most 4 of one kind. */
  predicate ListUsable(table: TokenTable, owner: string, domainId: Option<string>, tokens: seq<string>, eligible: set<string>, now: int) {
    && |tokens| <= 25 && NoDuplicates(tokens)
    && (forall i :: 0 <= i < |tokens| ==> Nameable(table, owner, domainId, tokens[i], eligible, now))
    && (forall kind: RefKind :: |OfKind(table, tokens, kind)| <= 4)
  }

  lemma CapsAre(table: TokenTable, tokens: seq<string>)
    requires forall i :: 0 <= i < |tokens| ==> tokens[i] in table
    ensures WithinCaps(table, tokens) <==> forall kind: RefKind :: |OfKind(table, tokens, kind)| <= 4
  {
    forall kind: RefKind
      ensures KindCount(table, tokens, kind) == |OfKind(table, tokens, kind)|
    {
      KindCountIs(table, tokens, kind);
    }
  }

  /** Validation accepts exactly the usable lists, and hands over every token's target and label in order. */
  lemma ValidateExact(table: TokenTable, owner: string, domainId: Option<string>, tokens: seq<string>, eligible: set<string>, now: int)
    ensures var r := ValidateTokens(table, owner, domainId, tokens, eligible, now);
      && (r.Success? <==> ListUsable(table, owner, domainId, tokens, eligible, now))
      && (r.Success? ==> |r.value| == |tokens| && forall k :: 0 <= k < |tokens| ==>
            r.value[k] == ValidatedRef(k + 1, table[tokens[k]].kind, table[tokens[k]].targetId,
                                       table[tokens[k]].safeLabel, table[tokens[k]].safeDescription))
  {
    forall i | 0 <= i < |tokens|
      ensures Nameable(table, owner, domainId, tokens[i], eligible, now) <==>
        WellFormedToken(tokens[i]) && Usable(table, owner, tokens[i], now) && TargetAllowed(table[tokens[i]], domainId, tokens[i] in eligible)
    {
      NameableIs(table, owner, domainId, tokens[i], eligible, now);
    }
    if forall i :: 0 <= i < |tokens| ==> tokens[i] in table { CapsAre(table, tokens); }
  }

  // --------------------------------------------------------------- consumption

  function Spend(token: Token, now: int): Token { token.(consumedAt := Some(now)) }

  function Consumed(table: TokenTable): set<string> {
    set k | k in table && table[k].consumedAt.Some?
  }

  /** Mark every token consumed, or raise and change nothing. */
  function ConsumeTokens(table: TokenTable, owner: string, tokens: seq<string>, now: int): Result<TokenTable, RefError> {
    if AllUsable(table, owner, tokens, now)
    then Success(map k | k in table :: if k in tokens then Spend(table[k], now) else table[k])
    else Failure(RefUnavailable)
  }

  /** Consumption is exact: the tokens named, each unspent before, are what becomes spent. */
  lemma ConsumeExact(table: TokenTable, owner: string, tokens: seq<string>, now: int)
    requires NoDuplicates(tokens)
    requires ConsumeTokens(table, owner, tokens, now).Success?
    ensures var after := ConsumeTokens(table, owner, tokens, now).value;
      && after.Keys == table.Keys
      && (forall k :: k in table ==> after[k] == if k in tokens then table[k].(consumedAt := Some(now)) else table[k])
      && Consumed(after) == Consumed(table) + Elements(tokens) && Consumed(table) !! Elements(tokens)
      && |Consumed(after)| == |Consumed(table)| + |tokens|
  {
    var after := ConsumeTokens(table, owner, tokens, now).value;
    assert Consumed(after) == Consumed(table) + Elements(tokens);
    DistinctCount(tokens);
  }

  /** No token is consumed twice: after one consumption every request naming any of its tokens is refused. */
  lemma NeverTwice(table: TokenTable, owner: string, tokens: seq<string>, now: int, other: seq<string>, who: string, later: int)
    requires ConsumeTokens(table, owner, tokens, now).Success?
    requires exists k :: k in tokens && k in other
    ensures ConsumeTokens(ConsumeTokens(table, owner, tokens, now).value, who, other, later).Failure?
  {
    var k :| k in tokens && k in other;
    var i :| 0 <= i < |other| && other[i] == k;
    assert !Usable(ConsumeTokens(table, owner, tokens, now).value, who, other[i], later);
  }

  /** The rows as the service holds them: consume_composer_ref_tokens walks the locked rows, sets
      consumed_at on each, and on the first unusable one raises, which rolls the transaction back. */
  class TokenRows {
    var table: TokenTable

    constructor (table: TokenTable)
      ensures this.table == table
    {
      this.table := table;
    }

    method Consume(owner: string, tokens: seq<string>, now: int) returns (ok: bool)
      requires NoDuplicates(tokens)
      modifies this
      ensures ok == ConsumeTokens(old(table), owner, tokens, now).Success?
      ensures ok ==> table == ConsumeTokens(old(table), owner, tokens, now).value
      ensures !ok ==> table == old(table)
    {
      var before := table;
      for i := 0 to |tokens|
        invariant before == old(table)
        invariant table.Keys == before.Keys
        invariant forall k :: 0 <= k < i ==> Usable(before, owner, tokens[k], now)
        invariant forall k :: k in before ==> table[k] == if k in tokens[..i] then Spend(before[k], now) else before[k]
      {
        var hash := tokens[i];
        assert hash !in tokens[..i];
        if hash !in table || table[hash].owner != owner || table[hash].expiresAt <= now || table[hash].consumedAt.Some? {
          table := before;
          assert !Usable(before, owner, tokens[i], now);
          return false;
        }
        table := table[hash := Spend(table[hash], now)];
      }
      assert tokens[..|tokens|] == tokens;
      return true;
    }
  }
}
