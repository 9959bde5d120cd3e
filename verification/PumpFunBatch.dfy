/** Folding a live batch of launches into the three lists it touches (apps/web/lib/market-feeds.ts). */
module PumpFunBatch {
  import opened Common
  import opened Sequences

  /** `createdAt` is none when the date cannot be read; `progress` is in hundredths of a percent. */
  datatype Token = Token(mint: string, symbol: Option<string>, complete: bool, createdAt: Option<int>, progress: int, rest: string)

  datatype Lists = Lists(trenches: seq<Token>, bonding: seq<Token>, graduated: seq<Token>)

  const TRENCHES_MAX: nat := 50
  const GRADUATED_PUMPFUN_MAX: nat := 30
  const NEW_LAUNCH_WINDOW_MS := 10 * 60_000

  // ---------------------------------------------------------------------------------------
  // Tickers
  // ---------------------------------------------------------------------------------------

  function DropDollars(s: string): string {
    if s != [] && s[0] == '$' then DropDollars(s[1..]) else s
  }

  function NormalizedTicker(symbol: Option<string>): Option<string> {
    if symbol.None? then None
    else
      var ticker := Lower(DropDollars(TrimRight(TrimLeft(symbol.value))));
      if ticker == "" then None else Some(ticker)
  }

  lemma {:induction false} DollarsDropped(dollars: string, s: string)
    requires (forall i | 0 <= i < |dollars| :: dollars[i] == '$') && (s == [] || s[0] != '$')
    ensures DropDollars(dollars + s) == s
  {
    if dollars == [] {
      assert dollars + s == s;
    } else {
      assert (dollars + s)[1..] == dollars[1..] + s;
      DollarsDropped(dollars[1..], s);
    }
  }

  lemma DollarsNotBlank(dollars: string, name: string)
    requires name != [] && !IsBlank(name[0]) && !IsBlank(name[|name| - 1])
    requires forall i | 0 <= i < |dollars| :: dollars[i] == '$'
    ensures var s := dollars + name; s != [] && !IsBlank(s[0]) && !IsBlank(s[|s| - 1])
  {
    assert (dollars + name)[|dollars + name| - 1] == name[|name| - 1];
  }

  lemma LoweredIsBlank(c: char)
    ensures IsBlank(LowerChar(c)) <==> IsBlank(c)
    ensures LowerChar(c) == '$' <==> c == '$'
  {
  }

  lemma LoweredPlain(name: string)
    requires name != [] && !IsBlank(name[0]) && !IsBlank(name[|name| - 1]) && name[0] != '$'
    ensures var s := Lower(name);
            s != [] && !IsBlank(s[0]) && !IsBlank(s[|s| - 1]) && s[0] != '$' && Lower(s) == s
  {
    hide IsBlank;
    LoweredIsBlank(name[0]);
    LoweredIsBlank(name[|name| - 1]);
    LowerTwice(name);
  }

  lemma DollarIsNotBlank()
    ensures !IsBlank('$')
  {
  }

  lemma TickerOf(dollars: string, name: string)
    requires name != [] && !IsBlank(name[0]) && !IsBlank(name[|name| - 1]) && name[0] != '$'
    requires forall i | 0 <= i < |dollars| :: dollars[i] == '$'
    ensures NormalizedTicker(Some(dollars + name)) == Some(Lower(name))
  {
    DollarsNotBlank(dollars, name);
    hide IsBlank, TrimLeft, TrimRight, Lower, DropDollars;
    NothingToTrim(dollars + name);
    DollarsDropped(dollars, name);
    assert Lower(name) != [];
  }

  /** Blanks around a symbol do not matter. */
  lemma TickerIgnoresBlanks(before: string, symbol: string, after: string)
    requires AllBlank(before) && AllBlank(after)
    requires symbol == [] || (!IsBlank(symbol[0]) && !IsBlank(symbol[|symbol| - 1]))
    ensures NormalizedTicker(Some(before + symbol + after)) == NormalizedTicker(Some(symbol))
  {
    hide AllBlank, IsBlank, TrimLeft, TrimRight, Lower, DropDollars;
    TrimmedText(before, symbol, after);
    if symbol != [] {
      NothingToTrim(symbol);
    }
  }

  /** Nothing but dollar signs, or nothing at all, is no ticker. */
  lemma NoTicker(dollars: string)
    requires forall i | 0 <= i < |dollars| :: dollars[i] == '$'
    ensures NormalizedTicker(Some(dollars)).None? && NormalizedTicker(None).None?
  {
    hide TrimLeft, TrimRight, DropDollars, IsBlank;
    DollarsDropped(dollars, []);
    assert dollars + [] == dollars;
    DollarIsNotBlank();
    if dollars != [] {
      NothingToTrim(dollars);
    }
  }

  /** A name, however many dollar signs are put before it and whatever its case, is one ticker: the name in lower case. */
  lemma OneTicker(dollars: string, name: string)
    requires name != [] && !IsBlank(name[0]) && !IsBlank(name[|name| - 1]) && name[0] != '$'
    requires forall i | 0 <= i < |dollars| :: dollars[i] == '$'
    ensures NormalizedTicker(Some(dollars + name)) == NormalizedTicker(Some(name)) == Some(Lower(name))
    ensures NormalizedTicker(Some(Lower(name))) == Some(Lower(name))
  {
    hide NormalizedTicker, Lower, IsBlank;
    LoweredPlain(name);
    TickerOf(dollars, name);
    TickerOf([], name);
    TickerOf([], Lower(name));
    assert [] + name == name && [] + Lower(name) == Lower(name);
  }

  lemma LowerDog()
    ensures Lower("DOG") == "dog"
  {
  }

  lemma DogTickers()
    ensures NormalizedTicker(Some("$DOG")) == NormalizedTicker(Some("DOG")) == NormalizedTicker(Some("dog")) == Some("dog")
  {
    hide NormalizedTicker, Lower;
    LowerDog();
    OneTicker("$", "DOG");
    assert "$" + "DOG" == "$DOG";
  }

  predicate TickerTaken(list: seq<Token>, token: Token) {
    NormalizedTicker(token.symbol).Some? &&
    exists i | 0 <= i < |list| :: NormalizedTicker(list[i].symbol) == NormalizedTicker(token.symbol)
  }

  // ---------------------------------------------------------------------------------------
  // List operations
  // ---------------------------------------------------------------------------------------

  predicate Listed(list: seq<Token>, mint: string) {
    exists i | 0 <= i < |list| :: list[i].mint == mint
  }

  predicate UniqueMints(list: seq<Token>) {
    forall i, j | 0 <= i < j < |list| :: list[i].mint != list[j].mint
  }

  function IndexOf(list: seq<Token>, mint: string): (index: int)
    ensures index == -1 <==> !Listed(list, mint)
    ensures index != -1 ==> 0 <= index < |list| && list[index].mint == mint && !Listed(list[..index], mint)
  {
    if list == [] then -1
    else if list[0].mint == mint then 0
    else
      var index := IndexOf(list[1..], mint);
      assert Listed(list, mint) <==> Listed(list[1..], mint) by {
        if Listed(list[1..], mint) {
          var k :| 0 <= k < |list[1..]| && list[1..][k].mint == mint;
          assert list[k + 1].mint == mint;
        }
        if k :| 0 <= k < |list| && list[k].mint == mint {
          assert list[1..][k - 1].mint == mint;
        }
      }
      if index == -1 then -1 else index + 1
  }

  function Upsert(list: seq<Token>, token: Token): (out: seq<Token>)
    ensures |out| == |list|
  {
    var index := IndexOf(list, token.mint);
    if index == -1 then list else list[index := token]
  }

  method UpsertBy(list: seq<Token>, token: Token) returns (out: seq<Token>, found: bool)
    ensures found <==> Listed(list, token.mint)
    ensures out == Upsert(list, token)
  {
    var index := 0;
    while index < |list| && list[index].mint != token.mint
      invariant 0 <= index <= |list| && forall k | 0 <= k < index :: list[k].mint != token.mint
    {
      index := index + 1;
    }
    found := index < |list|;
    if found {
      assert Listed(list, token.mint);
      var first := IndexOf(list, token.mint);
      assert first == index;
    }
    out := if found then list[index := token] else list;
  }

  function OtherThan(mint: string): Token -> bool {
    (t: Token) => t.mint != mint
  }

  function Drop(list: seq<Token>, mint: string): seq<Token> {
    Filter(list, OtherThan(mint))
  }

  /** The newcomer in front, cut at the cap. */
  function Push(list: seq<Token>, token: Token, cap: nat): (out: seq<Token>)
    ensures |out| <= cap
  {
    var longer := [token] + list;
    if |longer| <= cap then longer else longer[..cap]
  }

  predicate IsNewLaunch(token: Token, now: int) {
    token.createdAt.Some? && now - token.createdAt.value < NEW_LAUNCH_WINDOW_MS
  }

  predicate JoinsTrenches(lists: Lists, token: Token, now: int) {
    !Listed(lists.trenches, token.mint) && !Listed(lists.bonding, token.mint) &&
    !TickerTaken(Upsert(lists.trenches, token), token) && IsNewLaunch(token, now)
  }

  function FoldToken(lists: Lists, token: Token, now: int): Lists {
    if token.complete then
      Lists(Drop(lists.trenches, token.mint), Drop(lists.bonding, token.mint),
            if Listed(lists.graduated, token.mint) then Upsert(lists.graduated, token)
            else Push(lists.graduated, token, GRADUATED_PUMPFUN_MAX))
    else
      Lists(if JoinsTrenches(lists, token, now) then Push(lists.trenches, token, TRENCHES_MAX) else Upsert(lists.trenches, token),
            Upsert(lists.bonding, token), lists.graduated)
  }

  function FoldAll(lists: Lists, tokens: seq<Token>, now: int): Lists {
    if tokens == [] then lists
    else FoldToken(FoldAll(lists, tokens[..|tokens| - 1], now), tokens[|tokens| - 1], now)
  }

  function Falling(): Token -> real {
    (t: Token) => -(t.progress as real)
  }

  function AfterBatch(lists: Lists, tokens: seq<Token>, now: int): Lists {
    var folded := FoldAll(lists, tokens, now);
    folded.(bonding := SortBy(folded.bonding, Falling()))
  }

  // ---------------------------------------------------------------------------------------
  // What each list operation keeps
  // ---------------------------------------------------------------------------------------

  lemma UpsertKeeps(list: seq<Token>, token: Token)
    requires UniqueMints(list)
    ensures UniqueMints(Upsert(list, token))
    ensures forall m :: Listed(Upsert(list, token), m) <==> Listed(list, m)
    ensures forall t | t in Upsert(list, token) :: if t.mint == token.mint then t == token else t in list
  {
    var out := Upsert(list, token);
    assert forall i | 0 <= i < |list| :: out[i].mint == list[i].mint;
    forall m ensures Listed(out, m) <==> Listed(list, m) {
      if i :| 0 <= i < |list| && list[i].mint == m {
        assert out[i].mint == m;
      }
      if i :| 0 <= i < |out| && out[i].mint == m {
        assert list[i].mint == m;
      }
    }
    forall t | t in out
      ensures if t.mint == token.mint then t == token else t in list
    {
      var i :| 0 <= i < |out| && out[i] == t;
      if t.mint == token.mint {
        assert list[i].mint == token.mint;
        assert Listed(list, token.mint);
      } else {
        assert list[i] == t;
      }
    }
  }

  lemma NewAmong(list: seq<Token>, front: seq<Token>)
    requires list != [] && UniqueMints(list)
    requires forall i | 0 <= i < |front| :: front[i] in list[..|list| - 1]
    ensures forall i | 0 <= i < |front| :: front[i].mint != list[|list| - 1].mint
  {
    forall i | 0 <= i < |front| ensures front[i].mint != list[|list| - 1].mint {
      var k :| 0 <= k < |list| - 1 && list[..|list| - 1][k] == front[i];
      assert list[k] == front[i];
    }
  }

  lemma {:induction false} DropUnique(list: seq<Token>, mint: string)
    requires UniqueMints(list)
    ensures UniqueMints(Drop(list, mint))
  {
    if list != [] {
      var n := |list| - 1;
      DropUnique(list[..n], mint);
      NewAmong(list, Drop(list[..n], mint));
    }
  }

  lemma DropKeeps(list: seq<Token>, mint: string)
    requires UniqueMints(list)
    ensures UniqueMints(Drop(list, mint)) && |Drop(list, mint)| <= |list|
    ensures forall m :: Listed(Drop(list, mint), m) <==> m != mint && Listed(list, m)
    ensures forall t | t in Drop(list, mint) :: t in list && t.mint != mint
  {
    var out := Drop(list, mint);
    DropUnique(list, mint);
    forall m ensures Listed(out, m) <==> m != mint && Listed(list, m) {
      if i :| 0 <= i < |out| && out[i].mint == m {
        assert out[i] in list && OtherThan(mint)(out[i]);
        var k :| 0 <= k < |list| && list[k] == out[i];
      }
      if m != mint && Listed(list, m) {
        var k :| 0 <= k < |list| && list[k].mint == m;
        assert OtherThan(mint)(list[k]);
        assert list[k] in out;
        var i :| 0 <= i < |out| && out[i] == list[k];
      }
    }
    forall t | t in out ensures t in list && t.mint != mint {
      var i :| 0 <= i < |out| && out[i] == t;
      assert OtherThan(mint)(out[i]);
    }
  }

  lemma PushKeeps(list: seq<Token>, token: Token, cap: nat)
    requires UniqueMints(list) && !Listed(list, token.mint)
    ensures UniqueMints(Push(list, token, cap))
    ensures forall t | t in Push(list, token, cap) :: t == token || (t in list && t.mint != token.mint)
    ensures forall m | Listed(Push(list, token, cap), m) :: m == token.mint || Listed(list, m)
  {
    var longer, out := [token] + list, Push(list, token, cap);
    assert UniqueMints(longer);
    assert forall i | 0 <= i < |out| :: out[i] == longer[i];
    forall m | Listed(out, m) ensures m == token.mint || Listed(list, m) {
      var i :| 0 <= i < |out| && out[i].mint == m;
      if i > 0 {
        assert list[i - 1].mint == m;
      }
    }
    forall t | t in out ensures t == token || (t in list && t.mint != token.mint) {
      var i :| 0 <= i < |out| && out[i] == t;
      if i > 0 {
        assert list[i - 1] == t;
      }
    }
  }

  // ---------------------------------------------------------------------------------------
  // What the fold keeps
  // ---------------------------------------------------------------------------------------

  predicate Disjoint(a: seq<Token>, b: seq<Token>) {
    forall i, j | 0 <= i < |a| && 0 <= j < |b| :: a[i].mint != b[j].mint
  }

  predicate Tidy(lists: Lists) {
    UniqueMints(lists.trenches) && UniqueMints(lists.bonding) && UniqueMints(lists.graduated) &&
    Disjoint(lists.trenches, lists.bonding)
  }

  lemma DisjointIff(a: seq<Token>, b: seq<Token>)
    ensures Disjoint(a, b) <==> forall m :: !(Listed(a, m) && Listed(b, m))
  {
    if Disjoint(a, b) {
      forall m ensures !(Listed(a, m) && Listed(b, m)) {
      }
    } else {
      var i, j :| 0 <= i < |a| && 0 <= j < |b| && a[i].mint == b[j].mint;
      assert Listed(a, a[i].mint) && Listed(b, a[i].mint);
    }
  }

  lemma JoiningIsNew(lists: Lists, token: Token, now: int)
    ensures JoinsTrenches(lists, token, now) ==> !Listed(lists.trenches, token.mint) && !Listed(lists.bonding, token.mint)
  {
  }

  lemma StepIsTidy(lists: Lists, token: Token, now: int)
    requires Tidy(lists)
    ensures Tidy(FoldToken(lists, token, now))
  {
    hide Upsert, Drop, Push, Listed, Disjoint, UniqueMints, JoinsTrenches;
    var after := FoldToken(lists, token, now);
    DisjointIff(lists.trenches, lists.bonding);
    if token.complete {
      DropKeeps(lists.trenches, token.mint);
      DropKeeps(lists.bonding, token.mint);
      UpsertKeeps(lists.graduated, token);
      if !Listed(lists.graduated, token.mint) {
        PushKeeps(lists.graduated, token, GRADUATED_PUMPFUN_MAX);
      }
    } else {
      UpsertKeeps(lists.bonding, token);
      UpsertKeeps(lists.trenches, token);
      JoiningIsNew(lists, token, now);
      if JoinsTrenches(lists, token, now) {
        PushKeeps(lists.trenches, token, TRENCHES_MAX);
      }
    }
    DisjointIff(after.trenches, after.bonding);
  }

  /** One row per mint in each list, Trenches and Bonding disjoint, and no list past its cap unless it came so. */
  lemma {:induction false} FoldIsTidy(lists: Lists, tokens: seq<Token>, now: int)
    requires Tidy(lists)
    ensures var after := FoldAll(lists, tokens, now);
            Tidy(after) &&
            |after.trenches| <= Max(|lists.trenches|, 50) &&
            |after.bonding| <= |lists.bonding| &&
            |after.graduated| <= Max(|lists.graduated|, 30)
  {
    if tokens != [] {
      FoldIsTidy(lists, tokens[..|tokens| - 1], now);
      StepIsTidy(FoldAll(lists, tokens[..|tokens| - 1], now), tokens[|tokens| - 1], now);
    }
  }

  lemma TwoRows(s: seq<Token>, i: nat, j: nat)
    requires i < j < |s|
    ensures multiset(s)[s[i]] >= (if s[i] == s[j] then 2 else 1)
  {
    assert s == s[..i] + [s[i]] + s[i + 1..j] + [s[j]] + s[j + 1..];
  }

  lemma OneRow(s: seq<Token>, x: Token)
    requires UniqueMints(s)
    ensures multiset(s)[x] <= 1
  {
    DistinctCount(s, x);
  }

  lemma SortedPair(list: seq<Token>, sorted: seq<Token>, i: nat, j: nat)
    requires UniqueMints(list) && multiset(sorted) == multiset(list) && i < j < |sorted|
    ensures sorted[i].mint != sorted[j].mint
  {
    TwoRows(sorted, i, j);
    OneRow(list, sorted[i]);
    SameElements(sorted, list, sorted[i]);
    SameElements(sorted, list, sorted[j]);
    var a :| 0 <= a < |list| && list[a] == sorted[i];
    var b :| 0 <= b < |list| && list[b] == sorted[j];
  }

  lemma SortedMints(list: seq<Token>, key: Token -> real)
    ensures forall m :: Listed(SortBy(list, key), m) <==> Listed(list, m)
    ensures UniqueMints(list) ==> UniqueMints(SortBy(list, key))
  {
    hide SortBy;
    var sorted := SortBy(list, key);
    forall m ensures Listed(sorted, m) <==> Listed(list, m) {
      if i :| 0 <= i < |sorted| && sorted[i].mint == m {
        SameElements(sorted, list, sorted[i]);
        var k :| 0 <= k < |list| && list[k] == sorted[i];
      }
      if i :| 0 <= i < |list| && list[i].mint == m {
        SameElements(sorted, list, list[i]);
        var k :| 0 <= k < |sorted| && sorted[k] == list[i];
      }
    }
    if UniqueMints(list) {
      forall i, j | 0 <= i < j < |sorted| ensures sorted[i].mint != sorted[j].mint {
        SortedPair(list, sorted, i, j);
      }
    }
  }

  /** After a batch as it is returned, Bonding sorted, the lists are as tidy as before, so batches can follow one another. */
  lemma BatchIsTidy(lists: Lists, tokens: seq<Token>, now: int)
    requires Tidy(lists)
    ensures Tidy(AfterBatch(lists, tokens, now))
  {
    hide UniqueMints, Disjoint, SortBy, FoldAll;
    FoldIsTidy(lists, tokens, now);
    var folded := FoldAll(lists, tokens, now);
    SortedMints(folded.bonding, Falling());
    DisjointIff(folded.trenches, folded.bonding);
    DisjointIff(folded.trenches, AfterBatch(lists, tokens, now).bonding);
  }

  datatype Batch = Batch(tokens: seq<Token>, now: int)

  function AfterBatches(lists: Lists, batches: seq<Batch>): Lists {
    if batches == [] then lists
    else
      var last := batches[|batches| - 1];
      AfterBatch(AfterBatches(lists, batches[..|batches| - 1]), last.tokens, last.now)
  }

  /** Over any number of batches: one row per mint in each list, Trenches and Bonding disjoint, and the caps. */
  lemma {:induction false} BatchesAreTidy(lists: Lists, batches: seq<Batch>)
    requires Tidy(lists)
    ensures var after := AfterBatches(lists, batches);
            Tidy(after) &&
            |after.trenches| <= Max(|lists.trenches|, 50) &&
            |after.bonding| <= |lists.bonding| &&
            |after.graduated| <= Max(|lists.graduated|, 30)
  {
    if batches != [] {
      hide Tidy, FoldAll;
      var n := |batches| - 1;
      BatchesAreTidy(lists, batches[..n]);
      FoldIsTidy(AfterBatches(lists, batches[..n]), batches[n].tokens, batches[n].now);
      BatchIsTidy(AfterBatches(lists, batches[..n]), batches[n].tokens, batches[n].now);
    }
  }

  /** A report of the coin, not complete, dated less than ten minutes back. */
  predicate IsLaunchReport(token: Token, mint: string, now: int) {
    token.mint == mint && !token.complete && token.createdAt.Some? && now - token.createdAt.value < 600_000
  }

  /** A report adds no coin to Trenches but its own, and that only when it is dated less than ten minutes back. */
  lemma OnlyNewLaunchesJoin(lists: Lists, token: Token, now: int, mint: string)
    requires Tidy(lists)
    requires Listed(FoldToken(lists, token, now).trenches, mint) && !Listed(lists.trenches, mint)
    ensures IsLaunchReport(token, mint, now)
  {
    hide Upsert, Drop, Push, Listed, Disjoint, UniqueMints, TickerTaken;
    DropKeeps(lists.trenches, token.mint);
    UpsertKeeps(lists.trenches, token);
    JoiningIsNew(lists, token, now);
    if JoinsTrenches(lists, token, now) {
      PushKeeps(lists.trenches, token, TRENCHES_MAX);
    }
  }

  /** Over a batch, too: a coin that is new in Trenches was reported, not complete, less than ten minutes after its launch. */
  lemma {:induction false} BatchAddsOnlyNewLaunches(lists: Lists, tokens: seq<Token>, now: int, mint: string)
    requires Tidy(lists)
    requires Listed(FoldAll(lists, tokens, now).trenches, mint) && !Listed(lists.trenches, mint)
    ensures exists k :: 0 <= k < |tokens| && IsLaunchReport(tokens[k], mint, now)
  {
    hide FoldToken, Listed, Tidy, IsLaunchReport;
    var n := |tokens| - 1;
    var middle := FoldAll(lists, tokens[..n], now);
    if Listed(middle.trenches, mint) {
      BatchAddsOnlyNewLaunches(lists, tokens[..n], now, mint);
      var k :| 0 <= k < n && IsLaunchReport(tokens[..n][k], mint, now);
      assert tokens[k] == tokens[..n][k];
    } else {
      FoldIsTidy(lists, tokens[..n], now);
      OnlyNewLaunchesJoin(middle, tokens[n], now, mint);
    }
  }

  method ApplyPumpFunBatch(state: Lists, tokens: seq<Token>, now: int) returns (out: Lists)
    ensures out == AfterBatch(state, tokens, now)
    ensures Tidy(state) ==> Tidy(out)
    ensures Tidy(state) ==> forall mint | Listed(out.trenches, mint) && !Listed(state.trenches, mint) ::
              exists k :: 0 <= k < |tokens| && IsLaunchReport(tokens[k], mint, now)
  {
    var trenches, bonding, graduated := state.trenches, state.bonding, state.graduated;
    for n := 0 to |tokens|
      invariant Lists(trenches, bonding, graduated) == FoldAll(state, tokens[..n], now)
    {
      var token := tokens[n];
      ghost var before := Lists(trenches, bonding, graduated);
      assert tokens[..n + 1][..n] == tokens[..n];
      if token.complete {
        trenches := Filter(trenches, OtherThan(token.mint));
        bonding := Filter(bonding, OtherThan(token.mint));
        var replaced, found := UpsertBy(graduated, token);
        graduated := if found then replaced else Push(graduated, token, GRADUATED_PUMPFUN_MAX);
        continue;
      }
      var inTrenches, inBonding: bool;
      trenches, inTrenches := UpsertBy(trenches, token);
      bonding, inBonding := UpsertBy(bonding, token);
      if !inTrenches && !inBonding && !TickerTaken(trenches, token) && IsNewLaunch(token, now) {
        assert JoinsTrenches(before, token, now);
        trenches := Push(trenches, token, TRENCHES_MAX);
      }
    }
    assert tokens[..|tokens|] == tokens;
    bonding := SortBy(bonding, Falling());
    out := Lists(trenches, bonding, graduated);
    if Tidy(state) {
      BatchIsTidy(state, tokens, now);
      forall mint | Listed(out.trenches, mint) && !Listed(state.trenches, mint)
        ensures exists k :: 0 <= k < |tokens| && IsLaunchReport(tokens[k], mint, now)
      {
        BatchAddsOnlyNewLaunches(state, tokens, now, mint);
      }
    }
  }

  // ---------------------------------------------------------------------------------------
  // What the lists show
  // ---------------------------------------------------------------------------------------

  /** `after` is `before` with a newcomer in front, less the last row when there were already `cap` of them. */
  predicate JoinedAtFront(before: seq<Token>, token: Token, cap: nat, after: seq<Token>) {
    cap > 0 && after != [] && after[0] == token && after[1..] == before[..if |before| < cap then |before| else cap - 1]
  }

  lemma PushJoins(list: seq<Token>, token: Token, cap: nat)
    requires cap > 0
    ensures JoinedAtFront(list, token, cap, Push(list, token, cap))
  {
    assert Push(list, token, cap)[1..] == list[..if |list| < cap then |list| else cap - 1];
  }

  /**
    A report of a launch still under way joins Trenches, in front, exactly when its mint is in
    neither list, its ticker is free and it is new; otherwise no mint joins or leaves.
  */
  lemma LaunchJoinsIff(lists: Lists, token: Token, now: int)
    requires !token.complete
    ensures var after := FoldToken(lists, token, now).trenches;
            if !Listed(lists.trenches, token.mint) && !Listed(lists.bonding, token.mint) &&
               !(NormalizedTicker(token.symbol).Some? &&
                 exists i | 0 <= i < |lists.trenches| :: NormalizedTicker(lists.trenches[i].symbol) == NormalizedTicker(token.symbol)) &&
               token.createdAt.Some? && now < token.createdAt.value + 600_000
            then JoinedAtFront(lists.trenches, token, 50, after)
            else |after| == |lists.trenches| && forall i | 0 <= i < |after| :: after[i].mint == lists.trenches[i].mint
  {
    hide NormalizedTicker;
    assert !Listed(lists.trenches, token.mint) ==> Upsert(lists.trenches, token) == lists.trenches;
    PushJoins(lists.trenches, token, TRENCHES_MAX);
  }

  /** A completed launch is in Graduated afterwards: in its old place, or in front when it is new there. */
  lemma CompletionGraduates(lists: Lists, token: Token, now: int)
    requires token.complete
    ensures var after := FoldToken(lists, token, now).graduated;
            token in after &&
            if Listed(lists.graduated, token.mint)
            then |after| == |lists.graduated| && forall i | 0 <= i < |after| :: after[i].mint == lists.graduated[i].mint
            else JoinedAtFront(lists.graduated, token, 30, after)
  {
    if Listed(lists.graduated, token.mint) {
      assert Upsert(lists.graduated, token)[IndexOf(lists.graduated, token.mint)] == token;
    } else {
      PushJoins(lists.graduated, token, GRADUATED_PUMPFUN_MAX);
      assert FoldToken(lists, token, now).graduated[0] == token;
    }
  }

  function LastReport(tokens: seq<Token>, mint: string): Option<Token> {
    if tokens == [] then None
    else if tokens[|tokens| - 1].mint == mint then Some(tokens[|tokens| - 1])
    else LastReport(tokens[..|tokens| - 1], mint)
  }

  function LastCompletion(tokens: seq<Token>, mint: string): Option<Token> {
    if tokens == [] then None
    else if tokens[|tokens| - 1].mint == mint && tokens[|tokens| - 1].complete then Some(tokens[|tokens| - 1])
    else LastCompletion(tokens[..|tokens| - 1], mint)
  }

  /** A row shows the last report there was, or is as it was before when there was none. */
  predicate IsLatest(before: seq<Token>, report: Option<Token>, row: Token) {
    match report
    case None => row in before
    case Some(t) => row == t
  }

  predicate LastIsComplete(tokens: seq<Token>, mint: string) {
    LastReport(tokens, mint).Some? && LastReport(tokens, mint).value.complete
  }

  predicate Current(lists: Lists, tokens: seq<Token>, after: Lists) {
    (forall t | t in after.trenches :: !LastIsComplete(tokens, t.mint) && IsLatest(lists.trenches, LastReport(tokens, t.mint), t)) &&
    (forall t | t in after.bonding :: !LastIsComplete(tokens, t.mint) && IsLatest(lists.bonding, LastReport(tokens, t.mint), t)) &&
    (forall t | t in after.graduated :: IsLatest(lists.graduated, LastCompletion(tokens, t.mint), t))
  }

  lemma StepIsCurrent(lists: Lists, tokens: seq<Token>, now: int, middle: Lists)
    requires tokens != [] && Tidy(middle) && Current(lists, tokens[..|tokens| - 1], middle)
    ensures Current(lists, tokens, FoldToken(middle, tokens[|tokens| - 1], now))
  {
    hide Upsert, Drop, Push, Listed, Disjoint, UniqueMints, JoinsTrenches;
    var token := tokens[|tokens| - 1];
    if token.complete {
      DropKeeps(middle.trenches, token.mint);
      DropKeeps(middle.bonding, token.mint);
      UpsertKeeps(middle.graduated, token);
      if !Listed(middle.graduated, token.mint) {
        PushKeeps(middle.graduated, token, GRADUATED_PUMPFUN_MAX);
      }
    } else {
      UpsertKeeps(middle.bonding, token);
      UpsertKeeps(middle.trenches, token);
      JoiningIsNew(middle, token, now);
      if JoinsTrenches(middle, token, now) {
        PushKeeps(middle.trenches, token, TRENCHES_MAX);
      }
    }
  }

  /**
    After a batch every row shows its coin's last report: in Trenches and Bonding the last report of
    any kind, which was then not complete; in Graduated the last completed one.
  */
  lemma {:induction false} FoldIsCurrent(lists: Lists, tokens: seq<Token>, now: int)
    requires Tidy(lists)
    ensures Current(lists, tokens, FoldAll(lists, tokens, now))
  {
    if tokens != [] {
      var n := |tokens| - 1;
      FoldIsTidy(lists, tokens[..n], now);
      FoldIsCurrent(lists, tokens[..n], now);
      StepIsCurrent(lists, tokens, now, FoldAll(lists, tokens[..n], now));
    }
  }

  /** A coin whose last report is complete is in neither list; Bonding keeps exactly the coins never reported complete. */
  lemma {:induction false} BondingSurvivors(lists: Lists, tokens: seq<Token>, now: int, mint: string)
    requires Tidy(lists)
    ensures Listed(FoldAll(lists, tokens, now).bonding, mint) <==> Listed(lists.bonding, mint) && LastCompletion(tokens, mint).None?
    ensures LastIsComplete(tokens, mint) ==> !Listed(FoldAll(lists, tokens, now).trenches, mint)
  {
    FoldIsCurrent(lists, tokens, now);
    if i :| 0 <= i < |FoldAll(lists, tokens, now).trenches| && FoldAll(lists, tokens, now).trenches[i].mint == mint {
      assert FoldAll(lists, tokens, now).trenches[i] in FoldAll(lists, tokens, now).trenches;
    }
    if tokens != [] {
      var n := |tokens| - 1;
      BondingSurvivors(lists, tokens[..n], now, mint);
      FoldIsTidy(lists, tokens[..n], now);
      var middle := FoldAll(lists, tokens[..n], now);
      if tokens[n].complete {
        DropKeeps(middle.bonding, tokens[n].mint);
      } else {
        UpsertKeeps(middle.bonding, tokens[n]);
      }
    }
  }

  /** A newcomer in front would push the mint's row past the cap. */
  predicate LastInLine(list: seq<Token>, mint: string, cap: nat)
    requires cap > 0
  {
    |list| >= cap && Listed(list[cap - 1..], mint)
  }

  predicate Arrives(lists: Lists, token: Token, now: int, mint: string) {
    token.mint == mint && !token.complete && JoinsTrenches(lists, token, now)
  }

  /** A report takes a coin off Trenches by completing it, or by joining when the coin is last in line. */
  predicate Stays(lists: Lists, token: Token, now: int, mint: string) {
    if token.complete then token.mint != mint
    else !(JoinsTrenches(lists, token, now) && LastInLine(lists.trenches, mint, TRENCHES_MAX))
  }

  lemma ListedApart(list: seq<Token>, k: nat, mint: string)
    requires k <= |list|
    ensures Listed(list, mint) <==> Listed(list[..k], mint) || Listed(list[k..], mint)
    ensures UniqueMints(list) ==> !(Listed(list[..k], mint) && Listed(list[k..], mint))
  {
    if i :| 0 <= i < |list| && list[i].mint == mint {
      assert if i < k then list[..k][i].mint == mint else list[k..][i - k].mint == mint;
    }
    if i :| 0 <= i < k && list[..k][i].mint == mint {
      assert list[i].mint == mint;
    }
    if i :| 0 <= i < |list| - k && list[k..][i].mint == mint {
      assert list[k + i].mint == mint;
    }
  }

  lemma OnlyListed(token: Token, mint: string)
    ensures Listed([token], mint) <==> token.mint == mint
  {
    assert [token][0] == token;
  }

  lemma NoneListed(list: seq<Token>, mint: string)
    requires list == []
    ensures !Listed(list, mint)
  {
  }

  lemma PushLists(list: seq<Token>, token: Token, mint: string, cap: nat)
    requires UniqueMints(list) && !Listed(list, token.mint) && cap > 0
    ensures Listed(Push(list, token, cap), mint) <==>
            token.mint == mint || (Listed(list, mint) && !LastInLine(list, mint, cap))
  {
    hide Listed, UniqueMints;
    var out := Push(list, token, cap);
    var kept := if |list| < cap then |list| else cap - 1;
    assert out[..1] == [token] && out[1..] == list[..kept];
    ListedApart(out, 1, mint);
    ListedApart(list, kept, mint);
    OnlyListed(token, mint);
    NoneListed(list[|list|..], mint);
  }

  lemma TrenchesStep(lists: Lists, token: Token, now: int, mint: string)
    requires Tidy(lists)
    ensures Listed(FoldToken(lists, token, now).trenches, mint) <==>
            Arrives(lists, token, now, mint) || (Listed(lists.trenches, mint) && Stays(lists, token, now, mint))
  {
    hide Upsert, Drop, Push, Listed, Disjoint, UniqueMints, JoinsTrenches, LastInLine;
    DropKeeps(lists.trenches, token.mint);
    UpsertKeeps(lists.trenches, token);
    JoiningIsNew(lists, token, now);
    if JoinsTrenches(lists, token, now) {
      PushLists(lists.trenches, token, mint, TRENCHES_MAX);
    }
  }

  /** Listed from the start or since step m - 1, and never dropped from then on. */
  predicate Since(first: bool, arrives: seq<bool>, stays: seq<bool>, m: nat)
    requires |arrives| == |stays|
  {
    m <= |stays| && (if m == 0 then first else arrives[m - 1]) && forall k | m <= k < |stays| :: stays[k]
  }

  lemma SinceLast(first: bool, arrives: seq<bool>, stays: seq<bool>)
    requires |arrives| == |stays| > 0
    ensures var n := |stays| - 1;
            (exists m: nat :: Since(first, arrives, stays, m)) <==>
            arrives[n] || (stays[n] && exists m: nat :: Since(first, arrives[..n], stays[..n], m))
  {
    var n := |stays| - 1;
    if m: nat :| Since(first, arrives, stays, m) && m <= n {
      assert Since(first, arrives[..n], stays[..n], m);
    }
    if arrives[n] {
      assert Since(first, arrives, stays, n + 1);
    }
    if stays[n] {
      if m: nat :| Since(first, arrives[..n], stays[..n], m) {
        assert Since(first, arrives, stays, m);
      }
    }
  }

  /** Reports one by one: in the list after all of them, exactly when in it since some point. */
  lemma {:induction false} InSince(listed: seq<bool>, arrives: seq<bool>, stays: seq<bool>)
    requires |listed| == |stays| + 1 && |arrives| == |stays|
    requires forall k | 0 <= k < |stays| :: listed[k + 1] == (arrives[k] || (listed[k] && stays[k]))
    ensures listed[|stays|] <==> exists m: nat :: Since(listed[0], arrives, stays, m)
  {
    if stays == [] {
      assert Since(listed[0], arrives, stays, 0) <==> listed[0];
    } else {
      var n := |stays| - 1;
      assert listed[n + 1] == (arrives[n] || (listed[n] && stays[n]));
      InSince(listed[..n + 1], arrives[..n], stays[..n]);
      SinceLast(listed[0], arrives, stays);
    }
  }

  /** The lists before report k. */
  function Upto(lists: Lists, tokens: seq<Token>, now: int, k: nat): Lists
    requires k <= |tokens|
  {
    FoldAll(lists, tokens[..k], now)
  }

  lemma UptoNext(lists: Lists, tokens: seq<Token>, now: int, k: nat)
    requires Tidy(lists) && k < |tokens|
    ensures Tidy(Upto(lists, tokens, now, k))
    ensures Upto(lists, tokens, now, k + 1) == FoldToken(Upto(lists, tokens, now, k), tokens[k], now)
  {
    hide Tidy, FoldToken;
    FoldIsTidy(lists, tokens[..k], now);
    assert tokens[..k + 1][..k] == tokens[..k];
  }

  lemma UptoEnds(lists: Lists, tokens: seq<Token>, now: int)
    ensures Upto(lists, tokens, now, 0) == FoldAll(lists, tokens[..0], now) == lists
    ensures Upto(lists, tokens, now, |tokens|) == FoldAll(lists, tokens, now)
  {
    assert tokens[..0] == [] && tokens[..|tokens|] == tokens;
  }

  function TrenchesArrivals(lists: Lists, tokens: seq<Token>, now: int, mint: string): (out: seq<bool>)
    ensures |out| == |tokens|
  {
    seq(|tokens|, k requires 0 <= k < |tokens| => Arrives(Upto(lists, tokens, now, k), tokens[k], now, mint))
  }

  function TrenchesStays(lists: Lists, tokens: seq<Token>, now: int, mint: string): (out: seq<bool>)
    ensures |out| == |tokens|
  {
    seq(|tokens|, k requires 0 <= k < |tokens| => Stays(Upto(lists, tokens, now, k), tokens[k], now, mint))
  }

  /**
    Over a whole batch, a coin is in Trenches afterwards exactly when it was there or joined at some
    point, and no report since has completed it or joined while it was last in line.
  */
  lemma TrenchesSurvivors(lists: Lists, tokens: seq<Token>, now: int, mint: string)
    requires Tidy(lists)
    ensures Listed(FoldAll(lists, tokens, now).trenches, mint) <==>
            exists m: nat :: Since(Listed(lists.trenches, mint), TrenchesArrivals(lists, tokens, now, mint),
                                   TrenchesStays(lists, tokens, now, mint), m)
  {
    hide Listed, Arrives, Stays, FoldToken, FoldAll, Tidy, Since;
    var n := |tokens|;
    var listed := seq(n + 1, k requires 0 <= k <= n => Listed(Upto(lists, tokens, now, k).trenches, mint));
    var arrives, stays := TrenchesArrivals(lists, tokens, now, mint), TrenchesStays(lists, tokens, now, mint);
    forall k | 0 <= k < n ensures listed[k + 1] == (arrives[k] || (listed[k] && stays[k])) {
      UptoNext(lists, tokens, now, k);
      TrenchesStep(Upto(lists, tokens, now, k), tokens[k], now, mint);
    }
    UptoEnds(lists, tokens, now);
    assert listed[0] == Listed(lists.trenches, mint) && listed[n] == Listed(FoldAll(lists, tokens, now).trenches, mint);
    InSince(listed, arrives, stays);
  }

  /** A report that completes the coin lists it. */
  predicate Graduates(token: Token, mint: string) {
    token.mint == mint && token.complete
  }

  /** Another coin's completion drops the coin when it joins while the coin is last in line. */
  predicate StaysGraduated(lists: Lists, token: Token, mint: string) {
    !(token.complete && !Listed(lists.graduated, token.mint) && LastInLine(lists.graduated, mint, GRADUATED_PUMPFUN_MAX))
  }

  lemma GraduatedStep(lists: Lists, token: Token, now: int, mint: string)
    requires Tidy(lists)
    ensures Listed(FoldToken(lists, token, now).graduated, mint) <==>
            Graduates(token, mint) || (Listed(lists.graduated, mint) && StaysGraduated(lists, token, mint))
  {
    hide Upsert, Drop, Push, Listed, Disjoint, UniqueMints, JoinsTrenches, LastInLine;
    UpsertKeeps(lists.graduated, token);
    if token.complete && !Listed(lists.graduated, token.mint) {
      PushLists(lists.graduated, token, mint, GRADUATED_PUMPFUN_MAX);
    }
  }

  function Graduations(tokens: seq<Token>, mint: string): (out: seq<bool>)
    ensures |out| == |tokens|
  {
    seq(|tokens|, k requires 0 <= k < |tokens| => Graduates(tokens[k], mint))
  }

  function GraduatedStays(lists: Lists, tokens: seq<Token>, now: int, mint: string): (out: seq<bool>)
    ensures |out| == |tokens|
  {
    seq(|tokens|, k requires 0 <= k < |tokens| => StaysGraduated(Upto(lists, tokens, now, k), tokens[k], mint))
  }

  /**
    Over a whole batch, a coin is in Graduated afterwards exactly when it was there or was completed at
    some point, and no new completion since has joined while it was last in line.
  */
  lemma GraduatedSurvivors(lists: Lists, tokens: seq<Token>, now: int, mint: string)
    requires Tidy(lists)
    ensures Listed(FoldAll(lists, tokens, now).graduated, mint) <==>
            exists m: nat :: Since(Listed(lists.graduated, mint), Graduations(tokens, mint), GraduatedStays(lists, tokens, now, mint), m)
  {
    hide Listed, Graduates, StaysGraduated, FoldToken, FoldAll, Tidy, Since;
    var n := |tokens|;
    var listed := seq(n + 1, k requires 0 <= k <= n => Listed(Upto(lists, tokens, now, k).graduated, mint));
    var arrives, stays := Graduations(tokens, mint), GraduatedStays(lists, tokens, now, mint);
    forall k | 0 <= k < n ensures listed[k + 1] == (arrives[k] || (listed[k] && stays[k])) {
      UptoNext(lists, tokens, now, k);
      GraduatedStep(Upto(lists, tokens, now, k), tokens[k], now, mint);
    }
    UptoEnds(lists, tokens, now);
    assert listed[0] == Listed(lists.graduated, mint) && listed[n] == Listed(FoldAll(lists, tokens, now).graduated, mint);
    InSince(listed, arrives, stays);
  }

  function PlaceIn(list: seq<Token>): Token -> int {
    (t: Token) => IndexOf(list, t.mint)
  }

  lemma PlaceOf(list: seq<Token>, i: nat)
    requires UniqueMints(list) && i < |list|
    ensures IndexOf(list, list[i].mint) == i
  {
    assert Listed(list, list[i].mint);
  }

  /** Bonding ends by falling progress, as a permutation of what survived, equals in the order they had. */
  lemma BondingEndsSorted(lists: Lists, tokens: seq<Token>, now: int)
    requires Tidy(lists)
    ensures var survived := FoldAll(lists, tokens, now).bonding;
            var sorted := SortBy(survived, Falling());
            multiset(sorted) == multiset(survived) &&
            forall i, j | 0 <= i < j < |survived| ::
              sorted[i].progress > sorted[j].progress ||
              (sorted[i].progress == sorted[j].progress && IndexOf(survived, sorted[i].mint) <= IndexOf(survived, sorted[j].mint))
  {
    hide FoldAll, IndexOf;
    FoldIsTidy(lists, tokens, now);
    var survived := FoldAll(lists, tokens, now).bonding;
    forall i, j | 0 <= i < j < |survived| ensures PlaceIn(survived)(survived[i]) <= PlaceIn(survived)(survived[j]) {
      PlaceOf(survived, i);
      PlaceOf(survived, j);
    }
    SortIsStable(survived, Falling(), PlaceIn(survived));
  }

  // ---------------------------------------------------------------------------------------
  // One launch per ticker
  // ---------------------------------------------------------------------------------------

  predicate OnePerTicker(list: seq<Token>) {
    forall i, j | 0 <= i < j < |list| && NormalizedTicker(list[i].symbol).Some? ::
      NormalizedTicker(list[i].symbol) != NormalizedTicker(list[j].symbol)
  }

  /**
    The report gives a coin that is listed in Trenches a ticker that another coin there has. The
    rule of one launch per ticker is only asked of newcomers.
  */
  predicate TakesListedTicker(trenches: seq<Token>, token: Token) {
    !token.complete && Listed(trenches, token.mint) && NormalizedTicker(token.symbol).Some? &&
    exists i | 0 <= i < |trenches| ::
      trenches[i].mint != token.mint && NormalizedTicker(trenches[i].symbol) == NormalizedTicker(token.symbol)
  }

  lemma UpsertedTickers(trenches: seq<Token>, token: Token)
    requires UniqueMints(trenches) && OnePerTicker(trenches) && !token.complete
    ensures OnePerTicker(Upsert(trenches, token)) <==> !TakesListedTicker(trenches, token)
  {
    hide NormalizedTicker;
    var after := Upsert(trenches, token);
    if Listed(trenches, token.mint) {
      var k := IndexOf(trenches, token.mint);
      assert forall i | 0 <= i < |trenches| && i != k :: after[i] == trenches[i] && trenches[i].mint != token.mint;
      if i :| 0 <= i < |trenches| && trenches[i].mint != token.mint &&
              NormalizedTicker(trenches[i].symbol) == NormalizedTicker(token.symbol) {
        assert after[i] == trenches[i] && after[k] == token;
      }
    }
  }

  lemma JoinedTickers(trenches: seq<Token>, token: Token)
    requires OnePerTicker(trenches) && !TickerTaken(trenches, token)
    ensures OnePerTicker(Push(trenches, token, TRENCHES_MAX))
  {
    hide NormalizedTicker;
    assert OnePerTicker([token] + trenches);
  }

  lemma TickerOnce(list: seq<Token>, front: seq<Token>)
    requires list != [] && OnePerTicker(list)
    requires forall i | 0 <= i < |front| :: front[i] in list[..|list| - 1]
    ensures forall i | 0 <= i < |front| && NormalizedTicker(front[i].symbol).Some? ::
              NormalizedTicker(front[i].symbol) != NormalizedTicker(list[|list| - 1].symbol)
  {
    hide NormalizedTicker;
    forall i | 0 <= i < |front| && NormalizedTicker(front[i].symbol).Some?
      ensures NormalizedTicker(front[i].symbol) != NormalizedTicker(list[|list| - 1].symbol)
    {
      var k :| 0 <= k < |list| - 1 && list[..|list| - 1][k] == front[i];
      assert list[k] == front[i];
    }
  }

  lemma {:induction false} DropKeepsTickers(list: seq<Token>, mint: string)
    requires OnePerTicker(list)
    ensures OnePerTicker(Drop(list, mint))
  {
    hide NormalizedTicker;
    if list != [] {
      DropKeepsTickers(list[..|list| - 1], mint);
      TickerOnce(list, Drop(list[..|list| - 1], mint));
    }
  }

  /** A report leaves Trenches with one coin per ticker if and only if it takes no listed coin's ticker. */
  lemma TickersStayDistinctIff(lists: Lists, token: Token, now: int)
    requires UniqueMints(lists.trenches) && OnePerTicker(lists.trenches)
    ensures OnePerTicker(FoldToken(lists, token, now).trenches) <==> !TakesListedTicker(lists.trenches, token)
  {
    hide NormalizedTicker, OnePerTicker, TickerTaken;
    if token.complete {
      DropKeepsTickers(lists.trenches, token.mint);
    } else {
      UpsertedTickers(lists.trenches, token);
      if JoinsTrenches(lists, token, now) {
        assert Upsert(lists.trenches, token) == lists.trenches;
        JoinedTickers(lists.trenches, token);
      }
    }
  }

  /** So it fails: a coin first listed without a ticker is later given one that is taken. */
  lemma ListedTickerTaken(symbol: string, now: int)
    requires NormalizedTicker(Some(symbol)).Some?
    ensures var first := Token("a", None, false, None, 0, "");
            var trenches := [first, Token("b", Some(symbol), false, None, 0, "")];
            UniqueMints(trenches) && OnePerTicker(trenches) &&
            !OnePerTicker(FoldToken(Lists(trenches, [], []), first.(symbol := Some(symbol)), now).trenches)
  {
    var first := Token("a", None, false, None, 0, "");
    var trenches := [first, Token("b", Some(symbol), false, None, 0, "")];
    var token := first.(symbol := Some(symbol));
    assert NormalizedTicker(None) == None;
    hide NormalizedTicker, FoldToken;
    assert trenches[0].mint == token.mint && trenches[1].mint != token.mint;
    TickersStayDistinctIff(Lists(trenches, [], []), token, now);
  }

  /** Plain names are tickers, so there are such symbols. */
  lemma PlainTicker(s: string)
    requires s != [] && !IsBlank(s[0]) && !IsBlank(s[|s| - 1]) && s[0] != '$'
    ensures NormalizedTicker(Some(s)) == Some(Lower(s))
  {
    OneTicker("", s);
  }

  /** For one: a coin without a ticker, and then with that of another. */
  lemma DogTakenTwice(now: int)
    ensures var first, second := Token("a", None, false, None, 0, ""), Token("b", Some("dog"), false, None, 0, "");
            OnePerTicker([first, second]) &&
            !OnePerTicker(FoldToken(Lists([first, second], [], []), first.(symbol := Some("dog")), now).trenches)
  {
    PlainTicker("dog");
    ListedTickerTaken("dog", now);
  }

  lemma BatchStepTickers(lists: Lists, tokens: seq<Token>, now: int, n: nat)
    requires Tidy(lists) && n < |tokens| && OnePerTicker(FoldAll(lists, tokens[..n], now).trenches)
    ensures OnePerTicker(FoldAll(lists, tokens[..n + 1], now).trenches) <==>
            !TakesListedTicker(FoldAll(lists, tokens[..n], now).trenches, tokens[n])
  {
    hide OnePerTicker, TakesListedTicker, FoldToken;
    assert tokens[..n + 1][..n] == tokens[..n];
    FoldIsTidy(lists, tokens[..n], now);
    TickersStayDistinctIff(FoldAll(lists, tokens[..n], now), tokens[n], now);
  }

  /**
    Over a whole batch, Trenches has one coin per ticker after every report if and only if no report
    takes a listed coin's ticker.
  */
  lemma {:induction false} BatchKeepsOnePerTickerIff(lists: Lists, tokens: seq<Token>, now: int)
    requires Tidy(lists) && OnePerTicker(lists.trenches)
    ensures (forall n | 0 <= n <= |tokens| :: OnePerTicker(FoldAll(lists, tokens[..n], now).trenches)) <==>
            (forall n | 0 <= n < |tokens| :: !TakesListedTicker(FoldAll(lists, tokens[..n], now).trenches, tokens[n]))
  {
    hide *;
    UptoEnds(lists, tokens, now);
    if forall n | 0 <= n <= |tokens| :: OnePerTicker(FoldAll(lists, tokens[..n], now).trenches) {
      forall n | 0 <= n < |tokens| ensures !TakesListedTicker(FoldAll(lists, tokens[..n], now).trenches, tokens[n]) {
        assert OnePerTicker(FoldAll(lists, tokens[..n], now).trenches) && OnePerTicker(FoldAll(lists, tokens[..n + 1], now).trenches);
        BatchStepTickers(lists, tokens, now, n);
      }
    }
    if forall n | 0 <= n < |tokens| :: !TakesListedTicker(FoldAll(lists, tokens[..n], now).trenches, tokens[n]) {
      for n := 0 to |tokens|
        invariant forall m | 0 <= m <= n :: OnePerTicker(FoldAll(lists, tokens[..m], now).trenches)
      {
        BatchStepTickers(lists, tokens, now, n);
      }
    }
  }

  /** Every listed row is known under one ticker. */
  predicate KnownAs(tickers: map<string, Option<string>>, list: seq<Token>) {
    forall i | 0 <= i < |list| :: list[i].mint in tickers && NormalizedTicker(list[i].symbol) == tickers[list[i].mint]
  }

  lemma KnownTickerIsOwn(tickers: map<string, Option<string>>, trenches: seq<Token>, token: Token)
    requires OnePerTicker(trenches) && KnownAs(tickers, trenches) && KnownAs(tickers, [token])
    ensures !TakesListedTicker(trenches, token)
  {
    hide NormalizedTicker;
    if Listed(trenches, token.mint) && NormalizedTicker(token.symbol).Some? {
      var k :| 0 <= k < |trenches| && trenches[k].mint == token.mint;
      assert [token][0] == token;
      assert NormalizedTicker(trenches[k].symbol) == NormalizedTicker(token.symbol);
      forall i | 0 <= i < |trenches| && trenches[i].mint != token.mint
        ensures NormalizedTicker(trenches[i].symbol) != NormalizedTicker(token.symbol)
      {
        assert i != k;
      }
    }
  }

  lemma KnownAfter(tickers: map<string, Option<string>>, lists: Lists, token: Token, now: int)
    requires UniqueMints(lists.trenches) && KnownAs(tickers, lists.trenches) && KnownAs(tickers, [token])
    ensures KnownAs(tickers, FoldToken(lists, token, now).trenches)
  {
    hide NormalizedTicker, JoinsTrenches, Upsert, Drop, Push, Listed;
    DropKeeps(lists.trenches, token.mint);
    UpsertKeeps(lists.trenches, token);
    JoiningIsNew(lists, token, now);
    if JoinsTrenches(lists, token, now) {
      PushKeeps(lists.trenches, token, TRENCHES_MAX);
    }
    var after := FoldToken(lists, token, now).trenches;
    forall i | 0 <= i < |after|
      ensures after[i].mint in tickers && NormalizedTicker(after[i].symbol) == tickers[after[i].mint]
    {
      assert after[i] in after;
      assert [token][0] == token;
      assert after[i] == token || after[i] in lists.trenches;
    }
  }

  /** As long as coins keep their tickers, none is ever taken, and a whole batch leaves one launch per ticker. */
  lemma {:induction false} BatchKeepsOnePerTicker(lists: Lists, tokens: seq<Token>, now: int, tickers: map<string, Option<string>>)
    requires Tidy(lists) && OnePerTicker(lists.trenches) && KnownAs(tickers, lists.trenches) && KnownAs(tickers, tokens)
    ensures OnePerTicker(FoldAll(lists, tokens, now).trenches) && KnownAs(tickers, FoldAll(lists, tokens, now).trenches)
  {
    if tokens != [] {
      hide NormalizedTicker, OnePerTicker, TakesListedTicker, FoldToken;
      var n := |tokens| - 1;
      BatchKeepsOnePerTicker(lists, tokens[..n], now, tickers);
      FoldIsTidy(lists, tokens[..n], now);
      var middle := FoldAll(lists, tokens[..n], now);
      assert KnownAs(tickers, [tokens[n]]);
      KnownTickerIsOwn(tickers, middle.trenches, tokens[n]);
      TickersStayDistinctIff(middle, tokens[n], now);
      KnownAfter(tickers, middle, tokens[n], now);
    }
  }
}
