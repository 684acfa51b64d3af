/** The first, single-page table (the top-level `app.py`): six fixed players
    seated UTG to BB, two hole cards each sampled from a fresh 52-card pool,
    a host who deals the flop, the turn and the river from the cards nobody
    holds, and a reset that moves every player one seat on and deals again.
    After every host request the equities are recomputed by the older
    revision of `calculate_equity_multi`.

    The random draws are parameters: `random.sample(pool, 2)` is a pair of
    numbers that picks two different positions of the pool, `random.shuffle`
    is a deck given in its shuffled order, and the trials' decks and the
    hand evaluator are those of the equity model. */
module LegacyTable {
  import opened Wrappers
  import opened Seqs
  import opened Cards
  import opened Trials
  import opened HandNames
  import opened EquityReport
  import opened LegacyEquity

  const PLAYERS: seq<string> := ["Charles", "Peter", "Ryan", "Mihir", "Xavier", "Danial"]
  const POSITIONS_ORDER: seq<string> := ["UTG", "HJ", "CO", "BTN", "SB", "BB"]
  /** The trial count of every equity request. */
  const ITERATIONS: nat := 2000

  /** Python's `dict(zip(keys, values))`: pairs in order, a later key
      overwriting an earlier one, stopping at the shorter list. */
  function ZipMap<K, V>(keys: seq<K>, values: seq<V>): map<K, V>
    decreases |keys|
  {
    var k := ZipLength(keys, values);
    if k == 0 then map[]
    else ZipMap(keys[..k - 1], values[..k - 1])[keys[k - 1] := values[k - 1]]
  }

  /** Zipping keys without repeats with at least as many values gives every
      key its own value, and nothing else. */
  lemma {:induction false} ZipMapAt<K, V>(keys: seq<K>, values: seq<V>)
    requires Distinct(keys) && |keys| <= |values|
    ensures ZipMap(keys, values).Keys == Elems(keys)
    ensures forall i :: 0 <= i < |keys| ==> ZipMap(keys, values)[keys[i]] == values[i]
    decreases |keys|
  {
    if keys != [] {
      var k := |keys| - 1;
      var front, vals := keys[..k], values[..k];
      ZipMapAt(front, vals);
      assert Elems(keys) == Elems(front) + {keys[k]} by {
        assert keys == front + [keys[k]];
      }
      forall i | 0 <= i < k ensures ZipMap(keys, values)[keys[i]] == values[i] {
        assert front[i] == keys[i] && vals[i] == values[i];
      }
    }
  }

  lemma ZipSnoc<K, V>(keys: seq<K>, values: seq<V>)
    requires |keys| == |values| > 0
    ensures var n := |keys| - 1; ZipMap(keys, values) == ZipMap(keys[..n], values[..n])[keys[n] := values[n]]
  {
  }

  /** `dict(zip(players, positions_order))`. */
  function Positions(players: seq<string>): map<string, string>
  {
    ZipMap(players, POSITIONS_ORDER)
  }

  lemma PlayersDistinct()
    ensures Distinct(PLAYERS) && Distinct(POSITIONS_ORDER)
  {
    assert PLAYERS[0][0] == 'C' && PLAYERS[1][0] == 'P' && PLAYERS[2][0] == 'R';
    assert PLAYERS[3][0] == 'M' && PLAYERS[4][0] == 'X' && PLAYERS[5][0] == 'D';
    assert POSITIONS_ORDER[0][0] == 'U' && POSITIONS_ORDER[1][0] == 'H' && POSITIONS_ORDER[2][0] == 'C';
    assert POSITIONS_ORDER[3][0] == 'B' && POSITIONS_ORDER[4][0] == 'S';
    assert POSITIONS_ORDER[3][1] == 'T' && POSITIONS_ORDER[5][1] == 'B';
  }

  /** The list s turned left r times. */
  function Turned<T>(s: seq<T>, r: nat): (t: seq<T>)
    requires r <= |s|
    ensures |t| == |s|
  {
    s[r..] + s[..r]
  }

  /** `players[1:] + [players[0]]`: the first player moves to the end. */
  function RotateLeft<T>(players: seq<T>): (r: seq<T>)
    requires players != []
    ensures |r| == |players| && multiset(r) == multiset(players)
  {
    assert players == [players[0]] + players[1..];
    players[1..] + [players[0]]
  }

  /** Moving the first element to the end turns a list once more, and
      turning it all the way round gives it back. */
  lemma TurnStep<T>(s: seq<T>, r: nat)
    requires r < |s|
    ensures RotateLeft(Turned(s, r)) == Turned(s, r + 1)
    ensures Turned(s, |s|) == Turned(s, 0) == s
  {
    assert s[r..] == [s[r]] + s[r + 1..];
    assert s[..r + 1] == s[..r] + [s[r]];
  }

  /** The seat index after one more reset: six resets bring the players
      back to their first seating. */
  function NextSeat(r: nat): nat
  {
    if r >= 5 then 0 else r + 1
  }

  /** Every seating holds the six players once each. */
  lemma SeatingPlayers(r: nat)
    requires r < 6
    ensures multiset(Turned(PLAYERS, r)) == multiset(PLAYERS) && Distinct(Turned(PLAYERS, r))
  {
    PlayersDistinct();
    TurnedPermutes(PLAYERS, r);
    PermutationDistinct(PLAYERS, Turned(PLAYERS, r));
  }

  /** Turning a list only reorders it. */
  lemma TurnedPermutes<T>(s: seq<T>, r: nat)
    requires r <= |s|
    ensures multiset(Turned(s, r)) == multiset(s)
  {
    assert s == s[..r] + s[r..];
  }

  /** One reset turns the seating one step further. */
  lemma RotateStep(r: nat)
    requires r < 6
    ensures RotateLeft(Turned(PLAYERS, r)) == Turned(PLAYERS, NextSeat(r))
  {
    TurnStep(PLAYERS, r);
  }

  /** After a rotation every player but the first sits one label earlier in
      UTG, HJ, CO, BTN, SB, BB, and the first player becomes the big blind. */
  lemma RotateLabels(players: seq<string>)
    requires Distinct(players) && |players| == 6
    ensures var after := Positions(RotateLeft(players));
      && after.Keys == Elems(players)
      && after[players[0]] == "BB"
      && forall i :: 1 <= i < 6 ==> after[players[i]] == POSITIONS_ORDER[i - 1]
  {
    var r := RotateLeft(players);
    PermutationDistinct(players, r);
    ZipMapAt(r, POSITIONS_ORDER);
    assert r[5] == players[0];
    forall i | 1 <= i < 6 ensures r[i - 1] == players[i] {
    }
    assert Elems(r) == Elems(players) by {
      forall x ensures x in r <==> x in players {
        assert x in multiset(r) <==> x in multiset(players);
      }
    }
  }

  /** A hole hand: two different valid cards. */
  predicate TwoCards(h: seq<Card>)
  {
    |h| == 2 && h[0] != h[1] && ValidCard(h[0]) && ValidCard(h[1])
  }

  /** Every player holds two cards, and no card is held twice. */
  predicate WellDealt<K>(players: seq<K>, hands: map<K, seq<Card>>)
  {
    hands.Keys == Elems(players) && AllTwoCards(hands) && HandsApart(hands)
  }

  predicate AllTwoCards<K>(hands: map<K, seq<Card>>)
  {
    forall p :: p in hands ==> TwoCards(hands[p])
  }

  predicate HandsApart<K>(hands: map<K, seq<Card>>)
  {
    forall p, q :: p in hands && q in hands && p != q ==> Apart(hands[p], hands[q])
  }

  /** `random.sample(pool, 2)`: the pick's first number chooses a position of
      the pool and its second one of the remaining positions; every ordered
      pair of different positions is the result of some pick. */
  function Sample(pool: seq<Card>, pick: (nat, nat)): (h: seq<Card>)
    requires |pool| >= 2
    ensures |h| == 2 && h[0] in pool && h[1] in pool
    ensures Distinct(pool) ==> h[0] != h[1]
  {
    var i := pick.0 % |pool|;
    var j := pick.1 % (|pool| - 1);
    [pool[i], pool[if j < i then j else j + 1]]
  }

  /** Every ordered pair of different pool positions is drawn by some pick,
      so the picks cover all outcomes of `random.sample(pool, 2)`. */
  lemma SampleEveryPair(pool: seq<Card>, i: nat, j: nat)
    requires i < |pool| && j < |pool| && i != j
    ensures Sample(pool, (i, if j < i then j else j - 1)) == [pool[i], pool[j]]
  {
    var k := if j < i then j else j - 1;
    SmallMod(i, |pool|);
    SmallMod(k, |pool| - 1);
  }

  /** A number below the modulus is its own remainder. */
  lemma SmallMod(x: nat, m: nat)
    requires x < m
    ensures x % m == x
  {
  }

  /** Taking two different cards out of a pool without repeats leaves two
      fewer cards, still without repeats. */
  lemma DropTwo(pool: seq<Card>, h: seq<Card>)
    requires Distinct(pool) && AllValid(pool)
    requires |h| == 2 && h[0] != h[1] && h[0] in pool && h[1] in pool
    ensures var rest := Without(pool, Elems(h));
      |rest| == |pool| - 2 && Distinct(rest) && AllValid(rest)
  {
    var rest := Without(pool, Elems(h));
    RemovePair(pool, h);
    WithoutDistinct(pool, Elems(h));
    forall i | 0 <= i < |rest| ensures ValidCard(rest[i]) {
      WithoutMembers(pool, Elems(h), rest[i]);
    }
  }

  /** The pool once one sample per pick has been taken from the fresh deck. */
  function Pool(picks: seq<(nat, nat)>): (pool: seq<Card>)
    requires |picks| <= 26
    ensures |pool| == 52 - 2 * |picks| && Distinct(pool) && AllValid(pool)
  {
    if |picks| == 0 then
      FreshDeckComplete();
      FreshDeck()
    else
      var k := |picks| - 1;
      var prev := Pool(picks[..k]);
      var h := Sample(prev, picks[k]);
      DropTwo(prev, h);
      Without(prev, Elems(h))
  }

  /** The samples in dealing order: the i-th is drawn from the pool the
      first i samples left. */
  function Holes(picks: seq<(nat, nat)>): (hs: seq<seq<Card>>)
    requires |picks| <= 26
    ensures |hs| == |picks|
  {
    if |picks| == 0 then []
    else
      var k := |picks| - 1;
      Holes(picks[..k]) + [Sample(Pool(picks[..k]), picks[k])]
  }

  /** The hands after `for p in players: hands[p] = random.sample(pool, 2)`,
      each sample removed from the pool: player i holds sample i. */
  function Dealt<K>(players: seq<K>, picks: seq<(nat, nat)>): map<K, seq<Card>>
    requires |picks| == |players| <= 26
  {
    ZipMap(players, Holes(picks))
  }

  /** Two cards per hand, no card in two hands, none in the pool. */
  predicate HolesGood(hs: seq<seq<Card>>, pool: seq<Card>)
  {
    && (forall i :: 0 <= i < |hs| ==> TwoCards(hs[i]) && Apart(hs[i], pool))
    && forall i, j :: 0 <= i < |hs| && 0 <= j < |hs| && i != j ==> Apart(hs[i], hs[j])
  }

  /** The last sample and the pool it leaves, spelled out. */
  lemma HolesLast(picks: seq<(nat, nat)>)
    requires 0 < |picks| <= 26
    ensures var k := |picks| - 1;
      var h := Sample(Pool(picks[..k]), picks[k]);
      && Holes(picks) == Holes(picks[..k]) + [h]
      && Pool(picks) == Without(Pool(picks[..k]), Elems(h))
  {
  }

  /** Every sample is two different cards, no card is sampled twice, and no
      sampled card is left in the pool. */
  lemma {:induction false} HolesFacts(picks: seq<(nat, nat)>)
    requires |picks| <= 26
    ensures HolesGood(Holes(picks), Pool(picks))
  {
    if |picks| > 0 {
      var k := |picks| - 1;
      var prev := Pool(picks[..k]);
      HolesFacts(picks[..k]);
      HolesLast(picks);
      HolesStep(Holes(picks[..k]), prev, Sample(prev, picks[k]));
    }
  }

  /** One more sample from the pool keeps the samples good. */
  lemma HolesStep(hs: seq<seq<Card>>, pool: seq<Card>, h: seq<Card>)
    requires HolesGood(hs, pool) && Distinct(pool) && AllValid(pool)
    requires |h| == 2 && h[0] != h[1] && h[0] in pool && h[1] in pool
    ensures HolesGood(hs + [h], Without(pool, Elems(h)))
  {
    var rest := Without(pool, Elems(h));
    var hs' := hs + [h];
    forall j | 0 <= j < |rest| ensures rest[j] in pool && rest[j] !in h {
      WithoutMembers(pool, Elems(h), rest[j]);
    }
    assert TwoCards(h);
    forall i | 0 <= i < |hs'| ensures TwoCards(hs'[i]) && Apart(hs'[i], rest) {
      if i < |hs| {
        assert hs'[i] == hs[i];
      }
    }
    forall i, j | 0 <= i < |hs'| && 0 <= j < |hs'| && i != j ensures Apart(hs'[i], hs'[j]) {
      if i == |hs| {
        FromPoolApart(hs[j], h, pool);
      } else if j == |hs| {
        FromPoolApart(hs[i], h, pool);
      } else {
        assert hs'[i] == hs[i] && hs'[j] == hs[j];
      }
    }
  }

  /** Cards taken from the pool share none with a hand that is apart from it. */
  lemma FromPoolApart(a: seq<Card>, h: seq<Card>, pool: seq<Card>)
    requires Apart(a, pool) && forall i :: 0 <= i < |h| ==> h[i] in pool
    ensures Apart(a, h) && Apart(h, a)
  {
  }

  /** No hand shares a card with the pool. */
  predicate PoolApart<K>(hands: map<K, seq<Card>>, pool: seq<Card>)
  {
    forall p :: p in hands ==> Apart(hands[p], pool)
  }

  /** Dealing to players without repeats gives each of them two cards, no
      card twice, and none of them is left in the pool. */
  lemma DealFacts<K>(players: seq<K>, picks: seq<(nat, nat)>)
    requires Distinct(players) && |picks| == |players| <= 26
    ensures WellDealt(players, Dealt(players, picks))
    ensures PoolApart(Dealt(players, picks), Pool(picks))
  {
    ZipMapAt(players, Holes(picks));
    DealPairs(players, picks);
    DealApart(players, picks);
  }

  /** Each dealt hand is two different valid cards that left the pool. */
  lemma DealPairs<K>(players: seq<K>, picks: seq<(nat, nat)>)
    requires Distinct(players) && |picks| == |players| <= 26
    ensures AllTwoCards(Dealt(players, picks)) && PoolApart(Dealt(players, picks), Pool(picks))
  {
    var m := Dealt(players, picks);
    HolesFacts(picks);
    ZipMapAt(players, Holes(picks));
    forall p | p in m ensures TwoCards(m[p]) && Apart(m[p], Pool(picks)) {
      var i :| 0 <= i < |players| && players[i] == p;
    }
  }

  /** No card is dealt to two players. */
  lemma DealApart<K>(players: seq<K>, picks: seq<(nat, nat)>)
    requires Distinct(players) && |picks| == |players| <= 26
    ensures HandsApart(Dealt(players, picks))
  {
    var m := Dealt(players, picks);
    HolesFacts(picks);
    ZipMapAt(players, Holes(picks));
    forall p, q | p in m && q in m && p != q ensures Apart(m[p], m[q]) {
      var i :| 0 <= i < |players| && players[i] == p;
      var j :| 0 <= j < |players| && players[j] == q;
    }
  }


  /** One turn of the dealing loop: the sampled hand goes to the next player
      and both of its cards leave the pool, one `remove` at a time. */
  lemma DealStep<K>(players: seq<K>, picks: seq<(nat, nat)>, k: nat)
    requires |picks| == |players| <= 26 && k < |players|
    ensures var pool := Pool(picks[..k]);
      var h := Sample(pool, picks[k]);
      && h[1] in RemoveFirst(pool, h[0])
      && Dealt(players[..k + 1], picks[..k + 1]) == Dealt(players[..k], picks[..k])[players[k] := h]
      && Pool(picks[..k + 1]) == RemoveFirst(RemoveFirst(pool, h[0]), h[1])
  {
    var ps, ks := players[..k + 1], picks[..k + 1];
    assert ps[..k] == players[..k] && ks[..k] == picks[..k];
    HolesLast(ks);
    ZipSnoc(ps, Holes(ks));
    RemovePair(Pool(picks[..k]), Sample(Pool(picks[..k]), picks[k]));
  }

  /** The dealing loop of `new_game` and of the reset action. */
  method DealHands<K>(players: seq<K>, picks: seq<(nat, nat)>) returns (hands: map<K, seq<Card>>)
    requires |picks| == |players| <= 26
    ensures hands == Dealt(players, picks)
  {
    var pool := FreshDeck();
    hands := map[];
    for k := 0 to |players|
      invariant hands == Dealt(players[..k], picks[..k]) && pool == Pool(picks[..k])
    {
      DealStep(players, picks, k);
      var h := Sample(pool, picks[k]);
      hands := hands[players[k] := h];
      pool := RemoveFirst(pool, h[0]);
      pool := RemoveFirst(pool, h[1]);
    }
    assert players[..|players|] == players && picks[..|picks|] == picks;
  }

  /** `hands_pool.remove(c)` for both sampled cards is the pool without them. */
  lemma RemovePair(pool: seq<Card>, h: seq<Card>)
    requires Distinct(pool) && |h| == 2 && h[0] != h[1] && h[0] in pool && h[1] in pool
    ensures h[1] in RemoveFirst(pool, h[0])
    ensures RemoveFirst(RemoveFirst(pool, h[0]), h[1]) == Without(pool, Elems(h))
  {
    var once := RemoveFirst(pool, h[0]);
    RemoveFirstIsWithout(pool, h[0]);
    WithoutMembers(pool, {h[0]}, h[1]);
    WithoutDistinct(pool, {h[0]});
    RemoveFirstIsWithout(once, h[1]);
    WithoutTwice(pool, {h[0]}, {h[1]});
    PairElems(h);
  }

  /** The cards of a two-card hand. */
  lemma PairElems<T>(h: seq<T>)
    requires |h| == 2
    ensures {h[0]} + {h[1]} == Elems(h)
  {
  }

  /** The `game_state` dictionary. */
  datatype GameState = GameState(
    players: seq<string>,
    positions: map<string, string>,
    hands: map<string, seq<Card>>,
    board: seq<Card>,
    equities: seq<real>,
    tie: real,
    handRanks: map<string, string>)

  /** The hands in seating order, as the equity calculation receives them. */
  function HandList(players: seq<string>, hands: map<string, seq<Card>>): (hl: seq<seq<Card>>)
    requires Elems(players) <= hands.Keys
    ensures |hl| == |players| && forall i :: 0 <= i < |players| ==> hl[i] == hands[players[i]]
  {
    seq(|players|, i requires 0 <= i < |players| => hands[players[i]])
  }

  /** What every request leaves true: six players without repeats seated by
      `positions_order`, two cards each and no card twice, a board of 0, 3, 4
      or 5 distinct cards none of which is in a hand, and six equities. */
  predicate GoodGame(g: GameState)
  {
    && |g.players| == 6 && Distinct(g.players)
    && g.positions == Positions(g.players)
    && WellDealt(g.players, g.hands)
    && (|g.board| == 0 || 3 <= |g.board| <= 5)
    && Distinct(g.board) && AllValid(g.board)
    && (forall p :: p in g.hands ==> Apart(g.hands[p], g.board))
    && |g.equities| == 6
  }

  /** `{p: "" for p in players}`. */
  function BlankRanks(players: seq<string>): (m: map<string, string>)
    ensures m.Keys == Elems(players)
  {
    map p | p in Elems(players) :: ""
  }

  /** `new_game()`. */
  function NewGame(picks: seq<(nat, nat)>): GameState
    requires |picks| == 6
  {
    GameState(PLAYERS, Positions(PLAYERS), Dealt(PLAYERS, picks), [], Zeros(6), 0.0,
              BlankRanks(PLAYERS))
  }

  /** A new game is a good game: the twelve hole cards are distinct. */
  lemma NewGameGood(picks: seq<(nat, nat)>)
    requires |picks| == 6
    ensures GoodGame(NewGame(picks)) && NewGame(picks).board == []
  {
    PlayersDistinct();
    DealFacts(PLAYERS, picks);
  }

  lemma NewGameValid(g: GameState, picks: seq<(nat, nat)>)
    requires |picks| == 6 && g == NewGame(picks)
    ensures GoodGame(g) && g.players == Turned(PLAYERS, 0)
  {
    NewGameGood(picks);
    TurnStep(PLAYERS, 0);
  }

  /** Hole cards sit inside the flattened hand list. */
  lemma {:induction false} FlattenHas(ss: seq<seq<Card>>, i: nat, j: nat)
    requires i < |ss| && j < |ss[i]|
    ensures ss[i][j] in Flatten(ss)
  {
    var k := |ss| - 1;
    if i < k {
      FlattenHas(ss[..k], i, j);
    }
  }

  /** A flattened list of pairs has twice as many cards. */
  lemma {:induction false} FlattenPairs(ss: seq<seq<Card>>)
    requires forall i :: 0 <= i < |ss| ==> |ss[i]| == 2
    ensures |Flatten(ss)| == 2 * |ss|
  {
    if ss != [] {
      FlattenPairs(ss[..|ss| - 1]);
    }
  }

  /** The hands in seating order are six valid pairs: twelve hole cards. */
  lemma HandListFacts(players: seq<string>, hands: map<string, seq<Card>>)
    requires |players| == 6 && WellDealt(players, hands)
    ensures var hl := HandList(players, hands);
      && |Flatten(hl)| == 12
      && forall h :: h in hl ==> AllValid(h)
  {
    var hl := HandList(players, hands);
    HandListPairs(players, hands);
    FlattenPairs(hl);
    forall h | h in hl ensures AllValid(h) {
      var i :| 0 <= i < |hl| && hl[i] == h;
      PairValid(h);
    }
  }

  /** The cards of a two-card hand are valid cards. */
  lemma PairValid(h: seq<Card>)
    requires TwoCards(h)
    ensures AllValid(h)
  {
    forall k | 0 <= k < |h| ensures ValidCard(h[k]) {
      if k == 0 {
      } else {
        assert k == 1;
      }
    }
  }

  /** Every hand in seating order is two valid cards. */
  lemma HandListPairs(players: seq<string>, hands: map<string, seq<Card>>)
    requires WellDealt(players, hands)
    ensures forall i :: 0 <= i < |players| ==> TwoCards(HandList(players, hands)[i])
  {
    forall i | 0 <= i < |players| ensures TwoCards(HandList(players, hands)[i]) {
      assert players[i] in Elems(players);
    }
  }

  /** Every card of the flattened list comes from one of the pieces. */
  lemma {:induction false} FlattenFrom(ss: seq<seq<Card>>, c: Card)
    requires c in Flatten(ss)
    ensures exists i :: 0 <= i < |ss| && c in ss[i]
  {
    var k := |ss| - 1;
    if c !in ss[k] {
      FlattenFrom(ss[..k], c);
      var i :| 0 <= i < k && c in ss[..k][i];
      assert ss[..k][i] == ss[i];
    }
  }

  /** The used cards of host_view: every hole card, then the board. */
  function Used(g: GameState): seq<Card>
    requires Elems(g.players) <= g.hands.Keys
  {
    Flatten(HandList(g.players, g.hands)) + g.board
  }

  /** The deck the host draws from: the fresh deck without the used cards. */
  function DrawDeck(g: GameState): seq<Card>
    requires Elems(g.players) <= g.hands.Keys
  {
    Without(FreshDeck(), Elems(Used(g)))
  }

  /** A card is held in a hand exactly when it is in the flattened hand list. */
  lemma HeldCards(g: GameState, c: Card)
    requires GoodGame(g)
    ensures c in Flatten(HandList(g.players, g.hands)) <==> exists p :: p in g.hands && c in g.hands[p]
  {
    var hl := HandList(g.players, g.hands);
    if c in Flatten(hl) {
      FlattenFrom(hl, c);
      var i :| 0 <= i < |hl| && c in hl[i];
      assert g.players[i] in g.hands;
    }
    if p :| p in g.hands && c in g.hands[p] {
      assert p in Elems(g.players);
      var i :| 0 <= i < 6 && g.players[i] == p;
      var j :| 0 <= j < 2 && g.hands[p][j] == c;
      FlattenHas(hl, i, j);
    }
  }

  /** The draw deck is the valid cards nobody holds and the board does not
      show, without repeats, and it has at least 52 - 12 - |board| cards. */
  lemma DrawDeckFacts(g: GameState)
    requires GoodGame(g)
    ensures forall c :: c in DrawDeck(g) <==>
      ValidCard(c) && c !in g.board && !(exists p :: p in g.hands && c in g.hands[p])
    ensures Distinct(DrawDeck(g)) && AllValid(DrawDeck(g))
    ensures |DrawDeck(g)| >= 40 - |g.board|
  {
    var hl := HandList(g.players, g.hands);
    FreshDeckComplete();
    FlattenPairs(hl);
    forall c ensures c in DrawDeck(g) <==>
      ValidCard(c) && c !in g.board && !(exists p :: p in g.hands && c in g.hands[p])
    {
      WithoutMembers(FreshDeck(), Elems(Used(g)), c);
      HeldCards(g, c);
    }
    WithoutDistinct(FreshDeck(), Elems(Used(g)));
    WithoutLowerBound(FreshDeck(), Used(g));
    forall i | 0 <= i < |DrawDeck(g)| ensures ValidCard(DrawDeck(g)[i]) {
      WithoutMembers(FreshDeck(), Elems(Used(g)), DrawDeck(g)[i]);
    }
  }

  /** `[deck.pop() for _ in range(k)]`: the last k cards, last first. */
  function Popped(deck: seq<Card>, k: nat): (cards: seq<Card>)
    requires k <= |deck|
    ensures |cards| == k && forall i :: 0 <= i < k ==> cards[i] == deck[|deck| - 1 - i]
  {
    seq(k, i requires 0 <= i < k => deck[|deck| - 1 - i])
  }

  /** The draw deck, shuffled: at least 35 distinct cards nobody holds. */
  lemma ShuffledFacts(g: GameState, shuffled: seq<Card>)
    requires GoodGame(g) && multiset(shuffled) == multiset(DrawDeck(g))
    ensures |shuffled| >= 35 && Distinct(shuffled)
    ensures forall c :: c in shuffled ==> c in DrawDeck(g)
  {
    DrawDeckFacts(g);
    assert |shuffled| == |multiset(shuffled)| == |DrawDeck(g)|;
    PermutationDistinct(DrawDeck(g), shuffled);
    forall c | c in shuffled ensures c in DrawDeck(g) {
      assert c in multiset(shuffled);
    }
  }

  /** Cards popped off the shuffled draw deck extend the board without
      repeating a card, on the board or in a hand. */
  lemma PopGood(g: GameState, shuffled: seq<Card>, k: nat)
    requires GoodGame(g) && multiset(shuffled) == multiset(DrawDeck(g)) && k <= 3
    ensures k <= |shuffled|
    ensures var b := g.board + Popped(shuffled, k);
      && Distinct(b) && AllValid(b)
      && forall p :: p in g.hands ==> Apart(g.hands[p], b)
  {
    ShuffledFacts(g, shuffled);
    StreetCardsFresh(g, shuffled, k);
    var added := Popped(shuffled, k);
    PoppedDistinct(shuffled, k);
    ExtendBoard(g.board, added);
    forall p | p in g.hands ensures Apart(g.hands[p], g.board + added) {
      ApartExtended(g.hands[p], g.board, added);
    }
  }

  /** Popping cards off a deck without repeats pops no card twice. */
  lemma PoppedDistinct(deck: seq<Card>, k: nat)
    requires Distinct(deck) && k <= |deck|
    ensures Distinct(Popped(deck, k))
  {
  }

  /** Distinct valid cards not yet on a distinct valid board extend it. */
  lemma ExtendBoard(board: seq<Card>, added: seq<Card>)
    requires Distinct(board) && AllValid(board) && Distinct(added)
    requires forall c :: c in added ==> ValidCard(c) && c !in board
    ensures Distinct(board + added) && AllValid(board + added)
  {
    var b := board + added;
    forall i, j | 0 <= i < j < |b| ensures b[i] != b[j] {
      if j >= |board| {
        assert b[j] == added[j - |board|];
        assert b[j] in added;
      }
    }
    forall i | 0 <= i < |b| ensures ValidCard(b[i]) {
      if i >= |board| {
        assert b[i] == added[i - |board|];
        assert b[i] in added;
      }
    }
  }

  /** A hand apart from the board and holding none of the added cards is
      apart from the extended board. */
  lemma ApartExtended(h: seq<Card>, board: seq<Card>, added: seq<Card>)
    requires Apart(h, board) && forall c :: c in added ==> c !in h
    ensures Apart(h, board + added)
  {
    var b := board + added;
    forall i, j | 0 <= i < |h| && 0 <= j < |b| ensures h[i] != b[j] {
      if j >= |board| {
        assert b[j] == added[j - |board|];
        assert b[j] in added;
      }
    }
  }

  /** The reset action's new hand: players one seat on, fresh hole cards,
      an empty board, zero equities and tie, blank hand names. */
  function ResetGame(g: GameState, picks: seq<(nat, nat)>): (a: GameState)
    requires GoodGame(g) && |picks| == 6
    ensures GoodGame(a)
  {
    var seated := RotateLeft(g.players);
    PermutationDistinct(g.players, seated);
    DealFacts(seated, picks);
    g.(players := seated, positions := Positions(seated), hands := Dealt(seated, picks),
       board := [], equities := Zeros(|PLAYERS|), tie := 0.0,
       handRanks := BlankRanks(seated))
  }

  /** The state a host POST leaves before the equities are recomputed; every
      action keeps a good game good. */
  function Acted(g: GameState, action: string, shuffled: seq<Card>, picks: seq<(nat, nat)>): (a: GameState)
    requires GoodGame(g) && |picks| == 6 && multiset(shuffled) == multiset(DrawDeck(g))
    ensures GoodGame(a)
  {
    if action == "flop" && |g.board| == 0 then
      PopGood(g, shuffled, 3);
      g.(board := g.board + Popped(shuffled, 3))
    else if action == "turn" && |g.board| == 3 then
      PopGood(g, shuffled, 1);
      g.(board := g.board + Popped(shuffled, 1))
    else if action == "river" && |g.board| == 4 then
      PopGood(g, shuffled, 1);
      g.(board := g.board + Popped(shuffled, 1))
    else if action == "reset" then ResetGame(g, picks)
    else g
  }

  /** How many cards a request deals: the flop three and only onto an empty
      board, the turn and the river one each and only onto a board of three
      and of four cards; any other request none. */
  function StreetSize(board: seq<Card>, action: string): (k: nat)
    ensures k <= 3
  {
    if action == "flop" && |board| == 0 then 3
    else if action == "turn" && |board| == 3 then 1
    else if action == "river" && |board| == 4 then 1
    else 0
  }

  /** Every request but reset changes the board alone, by popping as many
      cards off the shuffled draw deck as its street deals (none when the
      guard fails or the action is unknown). */
  lemma ActedStreets(g: GameState, action: string, shuffled: seq<Card>, picks: seq<(nat, nat)>)
    requires GoodGame(g) && |picks| == 6 && multiset(shuffled) == multiset(DrawDeck(g))
    requires action != "reset"
    ensures var a := Acted(g, action, shuffled, picks);
      && a == g.(board := a.board)
      && |shuffled| >= 3
      && a.board == g.board + Popped(shuffled, StreetSize(g.board, action))
  {
    ShuffledFacts(g, shuffled);
    if StreetSize(g.board, action) == 0 {
      assert g.board + Popped(shuffled, 0) == g.board;
    }
  }

  /** Each card a street deals is a valid card that was neither on the board
      nor in anybody's hand. */
  lemma StreetCardsFresh(g: GameState, shuffled: seq<Card>, k: nat)
    requires GoodGame(g) && multiset(shuffled) == multiset(DrawDeck(g)) && k <= 3
    ensures |shuffled| >= 3
    ensures forall c :: c in Popped(shuffled, k) ==>
      ValidCard(c) && c !in g.board && forall p :: p in g.hands ==> c !in g.hands[p]
  {
    ShuffledFacts(g, shuffled);
    DrawDeckFacts(g);
    forall c | c in Popped(shuffled, k)
      ensures ValidCard(c) && c !in g.board && forall p :: p in g.hands ==> c !in g.hands[p]
    {
      var i :| 0 <= i < k && Popped(shuffled, k)[i] == c;
      assert c in shuffled;
    }
  }

  /** The reset request is none of the street requests. */
  lemma ResetIsNoStreet()
    ensures "reset" != "flop" && "reset" != "turn" && "reset" != "river"
  {
    assert "reset"[1] != "river"[1];
  }

  /** A reset seats the players one place on, deals two fresh cards to each
      with no card twice, clears the board and zeroes the equities and the
      tie. */
  lemma ActedReset(g: GameState, shuffled: seq<Card>, picks: seq<(nat, nat)>)
    requires GoodGame(g) && |picks| == 6 && multiset(shuffled) == multiset(DrawDeck(g))
    ensures var a := Acted(g, "reset", shuffled, picks);
      && a.players == RotateLeft(g.players)
      && a.positions == Positions(a.players)
      && WellDealt(a.players, a.hands)
      && a.board == [] && a.equities == Zeros(6) && a.tie == 0.0
      && (forall p :: p in a.handRanks <==> p in g.players)
      && forall p :: p in a.handRanks ==> a.handRanks[p] == ""
  {
    ResetIsNoStreet();
    var seated := RotateLeft(g.players);
    assert Elems(seated) == Elems(g.players) by {
      forall x ensures x in seated <==> x in g.players {
        assert x in multiset(seated) <==> x in multiset(g.players);
      }
    }
  }

  /** The equity results of one request: `calculate_equity_multi` over the
      hands in seating order with 2000 trials; if describing a hand raises,
      the request fails and the state keeps its old equities. */
  function Refreshed(g: GameState, decks: seq<seq<Card>>, evaluate: (seq<Card>, seq<Card>) -> int,
                     classify: (seq<Card>, seq<Card>) -> string): GameState
    requires GoodGame(g) && |decks| == ITERATIONS && forall t :: 0 <= t < |decks| ==> IsShuffle(decks[t])
  {
    var hl := HandList(g.players, g.hands);
    FlattenPairs(hl);
    var ts := TrialScores(decks, hl, g.board, evaluate);
    match HandRanks(g.players, hl, Describer(g.board, classify))
    case Success(ranks) =>
      g.(equities := Percentages(AsReals(Wins(ts, 6)), ITERATIONS),
         tie := Ties(ts) as real / ITERATIONS as real * 100.0,
         handRanks := ranks)
    case Failure(_) => g
  }

  /** After a request the equities and the tie figure are percentages that
      add up to 100, and the game stays good. */
  lemma RefreshedFacts(g: GameState, decks: seq<seq<Card>>, evaluate: (seq<Card>, seq<Card>) -> int,
                       classify: (seq<Card>, seq<Card>) -> string)
    requires GoodGame(g) && |decks| == ITERATIONS && forall t :: 0 <= t < |decks| ==> IsShuffle(decks[t])
    ensures GoodGame(Refreshed(g, decks, evaluate, classify))
    ensures Refreshed(g, decks, evaluate, classify).players == g.players
    ensures var r := Refreshed(g, decks, evaluate, classify);
      || r == g
      || (&& Sum(r.equities) + r.tie == 100.0
          && (forall i :: 0 <= i < 6 ==> 0.0 <= r.equities[i] <= 100.0)
          && 0.0 <= r.tie <= 100.0)
  {
    var hl := HandList(g.players, g.hands);
    FlattenPairs(hl);
    var ts := TrialScores(decks, hl, g.board, evaluate);
    ReportFacts(ts, 6);
  }

  /** The table behind the host and audience pages. */
  class Table {
    var game: GameState
    /** How many places the seating has turned since start-up, modulo six. */
    ghost var seat: nat

    ghost predicate Valid()
      reads this
    {
      GoodGame(game) && seat < 6 && game.players == Turned(PLAYERS, seat)
    }

    /** `game_state = new_game()` at start-up. */
    constructor (picks: seq<(nat, nat)>)
      requires |picks| == 6
      ensures Valid() && game == NewGame(picks) && seat == 0
    {
      var hands := DealHands(PLAYERS, picks);
      game := GameState(PLAYERS, Positions(PLAYERS), hands, [], Zeros(6), 0.0,
                        BlankRanks(PLAYERS));
      seat := 0;
      new;
      NewGameValid(game, picks);
    }

    /** `rotate_positions()`. */
    method RotatePositions()
      modifies this
      requires seat < 6 && game.players == Turned(PLAYERS, seat)
      ensures game == old(game).(players := RotateLeft(old(game).players),
                                 positions := Positions(RotateLeft(old(game).players)))
      ensures seat == NextSeat(old(seat)) && game.players == Turned(PLAYERS, seat)
    {
      var seated := game.players[1..] + [game.players[0]];
      game := game.(players := seated, positions := Positions(seated));
      seat := NextSeat(seat);
      RotateStep(old(seat));
    }

    /** The action branches of a host POST: deal a street from the shuffled
        draw deck, or reset the hand; then no equities are computed yet. */
    method Act(action: string, shuffled: seq<Card>, picks: seq<(nat, nat)>)
      modifies this
      requires Valid() && |picks| == 6
      requires multiset(shuffled) == multiset(DrawDeck(game))
      ensures game == Acted(old(game), action, shuffled, picks)
      ensures Valid() && seat == (if action == "reset" then NextSeat(old(seat)) else old(seat))
    {
      if action == "reset" {
        ResetIsNoStreet();
        Reset(picks);
      } else {
        var a := DealStreet(game, action, shuffled, picks);
        game := a;
      }
    }

    /** The reset branch: `rotate_positions()`, a fresh deal in the new
        seating order, and the board, equities, tie and names cleared. */
    method Reset(picks: seq<(nat, nat)>)
      modifies this
      requires Valid() && |picks| == 6
      ensures game == ResetGame(old(game), picks)
      ensures Valid() && seat == NextSeat(old(seat))
    {
      ghost var g := game;
      RotatePositions();
      var hands := DealHands(game.players, picks);
      game := game.(hands := hands, board := [], equities := Zeros(|PLAYERS|), tie := 0.0,
                    handRanks := BlankRanks(game.players));
      assert game == ResetGame(g, picks);
    }

    /** The equity step every host request ends with. */
    method Refresh(decks: seq<seq<Card>>, evaluate: (seq<Card>, seq<Card>) -> int,
                   classify: (seq<Card>, seq<Card>) -> string)
      modifies this
      requires Valid() && |decks| == ITERATIONS && forall t :: 0 <= t < |decks| ==> IsShuffle(decks[t])
      ensures game == Refreshed(old(game), decks, evaluate, classify)
      ensures Valid() && seat == old(seat)
    {
      RefreshedFacts(game, decks, evaluate, classify);
      var r := Recompute(game, decks, evaluate, classify);
      game := r;
    }

    /** `host_view`: on a POST the action, then on every request the equities. */
    method HostView(post: bool, action: string, shuffled: seq<Card>, picks: seq<(nat, nat)>,
                    decks: seq<seq<Card>>, evaluate: (seq<Card>, seq<Card>) -> int,
                    classify: (seq<Card>, seq<Card>) -> string)
      modifies this
      requires Valid() && |picks| == 6
      requires post ==> multiset(shuffled) == multiset(DrawDeck(game))
      requires |decks| == ITERATIONS && forall t :: 0 <= t < |decks| ==> IsShuffle(decks[t])
      ensures post ==> game == Refreshed(Acted(old(game), action, shuffled, picks), decks, evaluate, classify)
      ensures !post ==> game == Refreshed(old(game), decks, evaluate, classify)
      ensures Valid()
    {
      if post {
        Act(action, shuffled, picks);
      }
      Refresh(decks, evaluate, classify);
    }
  }

  /** The street branches of `host_view`: the flop pops three cards onto an
      empty board, the turn and the river one card each onto a board of three
      or four; any other request leaves the game as it is. */
  method DealStreet(g: GameState, action: string, shuffled: seq<Card>, picks: seq<(nat, nat)>)
    returns (a: GameState)
    requires GoodGame(g) && |picks| == 6 && multiset(shuffled) == multiset(DrawDeck(g))
    requires action != "reset"
    ensures a == Acted(g, action, shuffled, picks) && a.players == g.players
  {
    ShuffledFacts(g, shuffled);
    a := g;
    if action == "flop" && |g.board| == 0 {
      var cards, _ := PopCards(shuffled, 3);
      a := g.(board := g.board + cards);
    } else if action == "turn" && |g.board| == 3 {
      var cards, _ := PopCards(shuffled, 1);
      a := g.(board := g.board + cards);
    } else if action == "river" && |g.board| == 4 {
      var cards, _ := PopCards(shuffled, 1);
      a := g.(board := g.board + cards);
    }
  }

  /** The equity lines of `host_view`: run the simulation over the hands in
      seating order and, when every hand could be described, store the
      equities, the tie figure and the hand names. */
  method Recompute(g: GameState, decks: seq<seq<Card>>, evaluate: (seq<Card>, seq<Card>) -> int,
                   classify: (seq<Card>, seq<Card>) -> string) returns (r: GameState)
    requires GoodGame(g) && |decks| == ITERATIONS && forall t :: 0 <= t < |decks| ==> IsShuffle(decks[t])
    ensures r == Refreshed(g, decks, evaluate, classify)
  {
    var hl := HandList(g.players, g.hands);
    HandListFacts(g.players, g.hands);
    var equities, tie, handRanks :=
      CalculateEquityMulti(hl, g.players, ITERATIONS, g.board, decks, evaluate, classify);
    r := g;
    if handRanks.Success? {
      r := g.(equities := equities, tie := tie, handRanks := handRanks.value);
    }
  }

  /** `deck.pop()` k times: the popped cards in order, and the rest. */
  method PopCards(deck: seq<Card>, k: nat) returns (cards: seq<Card>, rest: seq<Card>)
    requires k <= |deck|
    ensures cards == Popped(deck, k) && rest == deck[..|deck| - k]
  {
    cards, rest := [], deck;
    for i := 0 to k
      invariant |rest| == |deck| - i && rest == deck[..|deck| - i]
      invariant cards == Popped(deck, i)
    {
      cards := cards + [rest[|rest| - 1]];
      rest := rest[..|rest| - 1];
    }
  }
}
