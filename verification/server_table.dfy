/** The single-table game server: one session record that the host drives
    through the streets of a hand (deal hole cards, flop, turn, river,
    showdown), the seat labels relative to the button, the simulation
    budget per street, which equity snapshot the audience may see, and what
    the public state endpoint publishes. The shuffle, the generated host
    code and the hand evaluator are inputs. */
module ServerTable {
  import opened Wrappers
  import opened Seqs
  import opened Cards
  import opened Trials

  datatype Phase = Waiting | Preflop | Flop | Turn | River | Showdown

  /** Live equities and hole cards. */
  const INFO_FULL: string := "FULL"
  /** Equities one street late and no hole cards. */
  const INFO_DELAYED: string := "DELAYED_EQUITY"

  lemma InfoModesDiffer()
    ensures INFO_FULL != INFO_DELAYED
  {
    assert |INFO_FULL| != |INFO_DELAYED|;
  }

  /** The street each street's delayed view looks back to. WAITING has no
      entry; PREFLOP has one, whose value is "nothing". */
  const PHASE_BACK: map<Phase, Option<Phase>> :=
    map[Preflop := None, Flop := Some(Preflop), Turn := Some(Flop),
        River := Some(Turn), Showdown := Some(River)]

  /** `PHASE_BACK.get(phase)`. */
  function PhaseBack(phase: Phase): Option<Phase>
  {
    if phase in PHASE_BACK then PHASE_BACK[phase] else None
  }

  /** The phase `advance` moves to; from WAITING or SHOWDOWN a new hand
      starts in PREFLOP. */
  function NextPhase(phase: Phase): Phase
  {
    match phase
    case Waiting => Preflop
    case Preflop => Flop
    case Flop => Turn
    case Turn => River
    case River => Showdown
    case Showdown => Preflop
  }

  /** The look-back table undoes the street order: the street before the one
      `advance` reaches from PREFLOP to RIVER is where it came from, and the
      first street of a hand has none. */
  lemma PhaseBackInvertsAdvance(phase: Phase)
    ensures phase != Waiting && phase != Showdown ==> PhaseBack(NextPhase(phase)) == Some(phase)
    ensures PhaseBack(Preflop) == None && PhaseBack(Waiting) == None
    ensures PhaseBack(phase).Some? ==> NextPhase(PhaseBack(phase).value) == phase
  {
  }

  /** An equity snapshot of one street, as the cache would hold it. */
  datatype Snapshot = Snapshot(equities: seq<real>, tieProbability: real, handRanks: map<string, string>)

  /** `resolve_display_info`: the snapshot the audience may see. */
  function ResolveDisplayInfo(mode: string, phase: Phase, cache: map<Phase, Snapshot>): (r: Option<Snapshot>)
    ensures r.Some? ==> exists q :: q in cache && r.value == cache[q]
  {
    if mode == INFO_FULL then
      (if phase in cache then Some(cache[phase]) else None)
    else if mode == INFO_DELAYED then
      var prev := PhaseBack(phase);
      if prev.Some? && prev.value in cache then Some(cache[prev.value]) else None
    else None
  }

  /** FULL shows the current street's entry and nothing else; DELAYED shows
      the entry of the street before and never the current one, nothing at
      all before the flop; any other mode shows nothing. */
  lemma DisclosureFacts(mode: string, phase: Phase, cache: map<Phase, Snapshot>)
    ensures mode == INFO_FULL ==>
      ResolveDisplayInfo(mode, phase, cache) == (if phase in cache then Some(cache[phase]) else None)
    ensures mode == INFO_DELAYED ==>
      ResolveDisplayInfo(mode, phase, cache) == ResolveDisplayInfo(mode, phase, cache - {phase})
    ensures mode == INFO_DELAYED && (phase == Preflop || phase == Waiting) ==>
      ResolveDisplayInfo(mode, phase, cache) == None
    ensures mode == INFO_DELAYED && phase != Waiting && phase != Showdown ==>
      ResolveDisplayInfo(mode, NextPhase(phase), cache) == (if phase in cache then Some(cache[phase]) else None)
    ensures mode != INFO_FULL && mode != INFO_DELAYED ==> ResolveDisplayInfo(mode, phase, cache) == None
  {
    InfoModesDiffer();
  }

  /** The seat labels for n players, clockwise from the button. */
  const LABELS: map<int, seq<string>> := map[
    2 := ["BTN", "BB"],
    3 := ["BTN", "SB", "BB"],
    4 := ["BTN", "SB", "BB", "UTG"],
    5 := ["BTN", "SB", "BB", "UTG", "CO"],
    6 := ["BTN", "SB", "BB", "UTG", "HJ", "CO"],
    7 := ["BTN", "SB", "BB", "UTG", "UTG+1", "HJ", "CO"],
    8 := ["BTN", "SB", "BB", "UTG", "UTG+1", "UTG+2", "HJ", "CO"],
    9 := ["BTN", "SB", "BB", "UTG", "UTG+1", "UTG+2", "UTG+3", "HJ", "CO"],
    10 := ["BTN", "SB", "BB", "UTG", "UTG+1", "UTG+2", "UTG+3", "UTG+4", "HJ", "CO"]]

  /** `labels.get(n, [])`: one label per seat for 2 to 10 players, the button first. */
  function Labels(n: int): (labels: seq<string>)
    ensures 2 <= n <= 10 ==> |labels| == n && labels[0] == "BTN"
    ensures !(2 <= n <= 10) ==> labels == []
  {
    if n in LABELS then LABELS[n] else []
  }

  /** The seat i places clockwise from seat b at a table of n. */
  function Seat(b: int, i: int, n: int): (m: int)
    requires n > 0
    ensures 0 <= m < n
  {
    (b + i) % n
  }

  /** k * n is at least n when k is positive and at most -n when it is negative. */
  lemma MulBound(k: int, n: int)
    requires n > 0
    ensures k >= 1 ==> k * n >= n
    ensures k <= -1 ==> k * n <= -n
  {
  }

  /** Seats b + i and b + j (mod n) coincide only when i and j do. */
  lemma ModInjective(b: int, i: int, j: int, n: int)
    requires 0 <= i < n && 0 <= j < n && Seat(b, i, n) == Seat(b, j, n)
    ensures i == j
  {
    var q1, q2 := (b + i) / n, (b + j) / n;
    assert b + i == q1 * n + (b + i) % n;
    assert b + j == q2 * n + (b + j) % n;
    assert i - j == (q1 - q2) * n;
    MulBound(q1 - q2, n);
  }

  lemma ModMultiple(m: int, q: int, n: int)
    requires 0 <= m < n
    ensures (m + q * n) % n == m
  {
    var x := m + q * n;
    var r, d := x % n, x / n;
    assert x == d * n + r;
    assert m - r == (d - q) * n;
    MulBound(d - q, n);
  }

  /** Every seat m is b + i (mod n) for i = (m - b) mod n. */
  lemma ModReach(b: int, m: int, n: int)
    requires 0 <= m < n
    ensures 0 <= (m - b) % n < n && Seat(b, (m - b) % n, n) == m
  {
    var i := (m - b) % n;
    var q := (m - b) / n;
    assert m - b == q * n + i;
    assert b + i == m + (-q) * n;
    ModMultiple(m, -q, n);
  }

  /** The players in the first k seats clockwise from seat b. */
  function SeatsFrom(players: seq<string>, b: int, k: nat): set<string>
    requires |players| > 0 && k <= |players|
  {
    set j | 0 <= j < k :: players[Seat(b, j, |players|)]
  }

  /** Walking all n seats from any seat meets every player. */
  lemma SeatsFromAll(players: seq<string>, b: int)
    requires |players| > 0
    ensures SeatsFrom(players, b, |players|) == Elems(players)
  {
    var n := |players|;
    forall p | p in players ensures p in SeatsFrom(players, b, n) {
      var m :| 0 <= m < n && players[m] == p;
      ModReach(b, m, n);
    }
  }

  /** With distinct names, the player in seat b + j is not the one in seat b + i. */
  lemma OtherSeat(players: seq<string>, b: int, i: int, j: int)
    requires Distinct(players) && 0 <= j < |players| && 0 <= i < |players| && i != j
    ensures players[Seat(b, j, |players|)] != players[Seat(b, i, |players|)]
  {
    if Seat(b, j, |players|) == Seat(b, i, |players|) {
      ModInjective(b, j, i, |players|);
    }
  }

  /** `get_positions`: walks the labels from the button clockwise. With 2 to 10
      players every player gets a label, seat b + i (mod n) gets label i and
      the button seat gets "BTN"; any other count gives no labels at all. */
  method GetPositions(players: seq<string>, buttonIndex: int) returns (pos: map<string, string>)
    ensures !(2 <= |players| <= 10) ==> pos == map[]
    ensures 2 <= |players| <= 10 ==> pos.Keys == Elems(players)
    ensures 2 <= |players| <= 10 && Distinct(players) ==>
      forall i :: 0 <= i < |players| ==> pos[players[Seat(buttonIndex, i, |players|)]] == Labels(|players|)[i]
    ensures 2 <= |players| <= 10 && Distinct(players) ==>
      forall m :: 0 <= m < |players| ==> pos[players[m]] == Labels(|players|)[(m - buttonIndex) % |players|]
    ensures 2 <= |players| <= 10 && Distinct(players) ==> pos[players[buttonIndex % |players|]] == "BTN"
  {
    var n := |players|;
    var labels := Labels(n);
    pos := map[];
    for i := 0 to |labels|
      invariant n > 0 ==> pos.Keys == SeatsFrom(players, buttonIndex, i)
      invariant n == 0 ==> pos == map[]
      invariant Distinct(players) ==>
        forall j :: 0 <= j < i ==> pos[players[Seat(buttonIndex, j, n)]] == labels[j]
    {
      LabelStep(players, buttonIndex, i, labels, pos);
      pos := pos[players[Seat(buttonIndex, i, n)] := labels[i]];
    }
    if 2 <= n <= 10 {
      SeatsFromAll(players, buttonIndex);
      if Distinct(players) {
        LabelsBySeat(players, buttonIndex, pos);
      }
    }
  }

  /** One turn of the labelling loop: the seat i places from the button gets
      label i, and the seats labelled before keep theirs. */
  lemma LabelStep(players: seq<string>, b: int, i: nat, labels: seq<string>, pos: map<string, string>)
    requires 0 < |players| && i < |labels| <= |players|
    requires pos.Keys == SeatsFrom(players, b, i)
    requires Distinct(players) ==> forall j :: 0 <= j < i ==> pos[players[Seat(b, j, |players|)]] == labels[j]
    ensures var pos' := pos[players[Seat(b, i, |players|)] := labels[i]];
      && pos'.Keys == SeatsFrom(players, b, i + 1)
      && (Distinct(players) ==> forall j :: 0 <= j < i + 1 ==> pos'[players[Seat(b, j, |players|)]] == labels[j])
  {
    var n := |players|;
    var seat := players[Seat(b, i, n)];
    if Distinct(players) {
      forall j | 0 <= j < i ensures players[Seat(b, j, n)] != seat {
        OtherSeat(players, b, i, j);
      }
    }
    assert SeatsFrom(players, b, i + 1) == SeatsFrom(players, b, i) + {seat};
  }

  /** Labels given seat by seat from the button, read player by player. */
  lemma LabelsBySeat(players: seq<string>, b: int, pos: map<string, string>)
    requires 2 <= |players| <= 10
    requires pos.Keys == Elems(players)
    requires forall j :: 0 <= j < |players| ==> pos[players[Seat(b, j, |players|)]] == Labels(|players|)[j]
    ensures forall m :: 0 <= m < |players| ==> pos[players[m]] == Labels(|players|)[(m - b) % |players|]
    ensures pos[players[b % |players|]] == "BTN"
  {
    var n := |players|;
    forall m | 0 <= m < n
      ensures pos[players[m]] == Labels(n)[(m - b) % n]
    {
      ModReach(b, m, n);
    }
    assert Seat(b, 0, n) == b % n;
  }

  /** Python's `int()` on a float: truncation toward zero. */
  function Trunc(x: real): int
  {
    if x >= 0.0 then x.Floor else -((-x).Floor)
  }

  /** `max(2, players_count)`. */
  function PlayerBase(playersCount: int): int
  {
    if playersCount > 2 then playersCount else 2
  }

  /** The street multiplier of `iterations_for`; streets not in its table get 0.6. */
  function Multiplier(phase: Phase): real
  {
    match phase
    case Preflop => 1.0
    case Flop => 0.75
    case Turn => 0.55
    case River => 0.40
    case _ => 0.6
  }

  /** `iterations_for`: 2200 / n^0.9 trials, scaled down street by street,
      clamped to [200, 2000]. `power(n)` stands for the float `n ** 0.9`. */
  function IterationsFor(playersCount: int, phase: Phase, power: int -> real): (iters: int)
    requires power(PlayerBase(playersCount)) > 0.0
    ensures 200 <= iters <= 2000
  {
    var base := Trunc(2200.0 / power(PlayerBase(playersCount)));
    var scaled := Trunc(base as real * Multiplier(phase));
    if 2000 < scaled then 2000 else if scaled < 200 then 200 else scaled
  }

  /** Position of a street in a hand, preflop first. */
  function StreetOrder(phase: Phase): nat
  {
    match phase
    case Preflop => 0
    case Flop => 1
    case Turn => 2
    case River => 3
    case _ => 4
  }

  /** A later street never gets more trials than an earlier one, and a count
      the clamp does not touch is the scaled budget. */
  lemma IterationsShrinkByStreet(playersCount: int, early: Phase, late: Phase, power: int -> real)
    requires power(PlayerBase(playersCount)) > 0.0
    requires StreetOrder(early) <= StreetOrder(late) < 4
    ensures IterationsFor(playersCount, late, power) <= IterationsFor(playersCount, early, power)
    ensures var scaled := Trunc(Trunc(2200.0 / power(PlayerBase(playersCount))) as real * Multiplier(late));
      200 <= scaled <= 2000 ==> IterationsFor(playersCount, late, power) == scaled
  {
    var p := power(PlayerBase(playersCount));
    var base := Trunc(2200.0 / p);
    assert 2200.0 / p > 0.0;
    assert base >= 0;
    assert base as real * Multiplier(late) <= base as real * Multiplier(early);
  }

  /** Python's `str.isspace` for one character: the code points it accepts,
      range by range. */
  predicate IsSpace(c: char)
  {
    var n := c as int;
    || 9 <= n <= 13 || 28 <= n <= 32 || n == 0x85 || n == 0xA0 || n == 0x1680
    || 0x2000 <= n <= 0x200A || n == 0x2028 || n == 0x2029 || n == 0x202F
    || n == 0x205F || n == 0x3000
  }

  /** How many whitespace characters run from position lo of s onwards. */
  function SpacesFrom(s: string, lo: nat): (n: nat)
    requires lo <= |s|
    ensures lo + n <= |s|
    decreases |s| - lo
  {
    if lo < |s| && IsSpace(s[lo]) then 1 + SpacesFrom(s, lo + 1) else 0
  }

  /** How many whitespace characters run back from position hi of s, not
      going below position lo. */
  function SpacesBefore(s: string, lo: nat, hi: nat): (n: nat)
    requires lo <= hi <= |s|
    ensures n <= hi - lo
  {
    if lo < hi && IsSpace(s[hi - 1]) then 1 + SpacesBefore(s, lo, hi - 1) else 0
  }

  /** `str.strip()`: the leading whitespace cut off, then the trailing. */
  function Strip(s: string): string
  {
    var i := SpacesFrom(s, 0);
    s[i..|s| - SpacesBefore(s, i, |s|)]
  }

  /** The forward count covers whitespace only. */
  lemma {:induction false} SpacesFromSpan(s: string, lo: nat)
    requires lo <= |s|
    ensures forall k :: lo <= k < lo + SpacesFrom(s, lo) ==> IsSpace(s[k])
    decreases |s| - lo
  {
    if lo < |s| && IsSpace(s[lo]) {
      SpacesFromSpan(s, lo + 1);
    }
  }

  /** The forward count stops at the end or at a character that is not
      whitespace. */
  lemma {:induction false} SpacesFromStop(s: string, lo: nat)
    requires lo <= |s|
    ensures lo + SpacesFrom(s, lo) == |s| || !IsSpace(s[lo + SpacesFrom(s, lo)])
    decreases |s| - lo
  {
    if lo < |s| && IsSpace(s[lo]) {
      SpacesFromStop(s, lo + 1);
    }
  }

  /** The backward count covers whitespace only. */
  lemma {:induction false} SpacesBeforeSpan(s: string, lo: nat, hi: nat)
    requires lo <= hi <= |s|
    ensures forall k :: hi - SpacesBefore(s, lo, hi) <= k < hi ==> IsSpace(s[k])
  {
    if lo < hi && IsSpace(s[hi - 1]) {
      SpacesBeforeSpan(s, lo, hi - 1);
    }
  }

  /** The backward count stops at lo or at a character that is not whitespace. */
  lemma {:induction false} SpacesBeforeStop(s: string, lo: nat, hi: nat)
    requires lo <= hi <= |s|
    ensures hi - SpacesBefore(s, lo, hi) == lo || !IsSpace(s[hi - SpacesBefore(s, lo, hi) - 1])
  {
    if lo < hi && IsSpace(s[hi - 1]) {
      SpacesBeforeStop(s, lo, hi - 1);
    }
  }

  /** `strip` keeps the middle s[i..j] of a name: everything it cuts off
      either end is whitespace, and what it keeps, unless empty, starts and
      ends with another character. */
  lemma StripCuts(s: string)
    ensures var i := SpacesFrom(s, 0);
      var j := |s| - SpacesBefore(s, i, |s|);
      && i <= j
      && (forall k :: 0 <= k < i ==> IsSpace(s[k]))
      && (forall k :: j <= k < |s| ==> IsSpace(s[k]))
      && (i == j || (!IsSpace(s[i]) && !IsSpace(s[j - 1])))
  {
    var i := SpacesFrom(s, 0);
    SpacesFromSpan(s, 0);
    SpacesFromStop(s, 0);
    SpacesBeforeSpan(s, i, |s|);
    SpacesBeforeStop(s, i, |s|);
  }

  /** A stripped name, unless empty, starts and ends with a character that
      is not whitespace. */
  lemma StripEnds(s: string)
    ensures Strip(s) == [] || (!IsSpace(Strip(s)[0]) && !IsSpace(Strip(s)[|Strip(s)| - 1]))
  {
    var i := SpacesFrom(s, 0);
    SpacesFromStop(s, 0);
    SpacesBeforeStop(s, i, |s|);
  }

  /** Stripping a stripped name changes nothing. */
  lemma StripIdempotent(s: string)
    ensures Strip(Strip(s)) == Strip(s)
  {
    StripEnds(s);
    NoSpaceEnds(Strip(s));
  }

  /** A name of only whitespace strips to "" (and the server still accepts it). */
  lemma StripBlank(s: string)
    requires forall k :: 0 <= k < |s| ==> IsSpace(s[k])
    ensures Strip(s) == []
  {
    AllSpaces(s, 0);
  }

  /** From a position on which everything is whitespace, the forward count
      reaches the end. */
  lemma {:induction false} AllSpaces(s: string, lo: nat)
    requires lo <= |s| && forall k :: lo <= k < |s| ==> IsSpace(s[k])
    ensures SpacesFrom(s, lo) == |s| - lo
    decreases |s| - lo
  {
    if lo < |s| {
      AllSpaces(s, lo + 1);
    }
  }

  /** A name with no whitespace at either end is its own stripped form. */
  lemma NoSpaceEnds(r: string)
    requires r == [] || (!IsSpace(r[0]) && !IsSpace(r[|r| - 1]))
    ensures Strip(r) == r
  {
    assert r[0..|r|] == r;
  }

  /* ---------------------------------------------------------------------
     The cards of one hand. The shuffled deck is read front to back through
     the deck pointer: 2n hole cards in two rounds starting left of the
     button, then burn 1 and flop 3, burn 1 and turn 1, burn 1 and river 1.
     --------------------------------------------------------------------- */

  /** The deck positions the player named p receives among the first k
      hole-card deals, when the deals start at deck position base: deal t
      goes to seat start + (t mod n). A name sitting twice collects the cards
      of both seats, as the hands dictionary does. */
  function HandSlots(players: seq<string>, start: int, base: nat, p: string, k: nat): (slots: seq<nat>)
    requires |players| > 0
    ensures forall j :: 0 <= j < |slots| ==> base <= slots[j] < base + k
    ensures forall i, j :: 0 <= i < j < |slots| ==> slots[i] < slots[j]
    decreases k
  {
    if k == 0 then []
    else
      var earlier := HandSlots(players, start, base, p, k - 1);
      earlier + (if players[Seat(start, (k - 1) % |players|, |players|)] == p then [base + k - 1] else [])
  }

  /** The hands dictionary after the first k hole-card deals, deal by deal:
      deal t appends the card at deck position base + t to the hand of the
      player in seat start + (t mod n). */
  function HandsSoFar(deck: seq<Card>, players: seq<string>, start: int, base: nat, k: nat): map<string, seq<Card>>
    requires |players| > 0 && base + k <= |deck|
    decreases k
  {
    if k == 0 then map p | p in players :: []
    else
      var m := HandsSoFar(deck, players, start, base, k - 1);
      var p := players[Seat(start, (k - 1) % |players|, |players|)];
      m[p := (if p in m then m[p] else []) + [deck[base + k - 1]]]
  }

  /** Every player has a hand from the start, and only players have one. */
  lemma {:induction false} HandsSoFarKeys(deck: seq<Card>, players: seq<string>, start: int, base: nat, k: nat, q: string)
    requires |players| > 0 && base + k <= |deck|
    ensures q in HandsSoFar(deck, players, start, base, k) <==> q in players
  {
    if k > 0 {
      HandsSoFarKeys(deck, players, start, base, k - 1, q);
    }
  }

  /** The same dictionary read by deck position: each player holds the cards
      at the positions of their deals, in deal order. */
  function HandsBySlots(deck: seq<Card>, players: seq<string>, start: int, base: nat, k: nat): map<string, seq<Card>>
    requires |players| > 0 && base + k <= |deck|
  {
    map p | p in players :: Pick(deck, HandSlots(players, start, base, p, k))
  }

  /** The hands dictionary once both rounds are dealt. */
  function HoleHands(deck: seq<Card>, players: seq<string>, start: int, base: nat): map<string, seq<Card>>
    requires |players| > 0 && base + 2 * |players| <= |deck|
  {
    HandsBySlots(deck, players, start, base, 2 * |players|)
  }

  /** Dealing card by card gives each player the cards at the positions of
      their deals. */
  lemma {:induction false} DealtBySlots(deck: seq<Card>, players: seq<string>, start: int, base: nat, k: nat, q: string)
    requires |players| > 0 && base + k <= |deck| && q in players
    ensures q in HandsSoFar(deck, players, start, base, k)
    ensures HandsSoFar(deck, players, start, base, k)[q] == Pick(deck, HandSlots(players, start, base, q, k))
  {
    HandsSoFarKeys(deck, players, start, base, k, q);
    if k > 0 {
      DealtBySlots(deck, players, start, base, k - 1, q);
      var a := HandSlots(players, start, base, q, k - 1);
      if players[Seat(start, (k - 1) % |players|, |players|)] == q {
        assert HandSlots(players, start, base, q, k) == a + [base + k - 1];
        assert Pick(deck, a + [base + k - 1]) == Pick(deck, a) + [deck[base + k - 1]];
      } else {
        assert HandSlots(players, start, base, q, k) == a;
      }
    }
  }

  /** Deal t gives the card at position base + t to the player in seat
      start + (t mod n), who already has a hand. */
  lemma DealStep(deck: seq<Card>, players: seq<string>, start: int, base: nat, t: nat, i: int)
    requires 0 <= i < |players| && t % |players| == i && base + t < |deck|
    ensures var p, m := players[Seat(start, i, |players|)], HandsSoFar(deck, players, start, base, t);
      p in m && HandsSoFar(deck, players, start, base, t + 1) == m[p := m[p] + [deck[base + t]]]
  {
    HandsSoFarKeys(deck, players, start, base, t, players[Seat(start, i, |players|)]);
  }

  /** Both readings of the dealt hands agree. */
  lemma DealtHands(deck: seq<Card>, players: seq<string>, start: int, base: nat, k: nat)
    requires |players| > 0 && base + k <= |deck|
    ensures HandsSoFar(deck, players, start, base, k) == HandsBySlots(deck, players, start, base, k)
  {
    var m, r := HandsSoFar(deck, players, start, base, k), HandsBySlots(deck, players, start, base, k);
    forall q ensures q in m <==> q in players {
      HandsSoFarKeys(deck, players, start, base, k, q);
    }
    forall q | q in players ensures m[q] == r[q] {
      DealtBySlots(deck, players, start, base, k, q);
    }
    assert m.Keys == r.Keys;
  }

  /** Both rounds dealt card by card give the hole hands. */
  lemma DealtHoleHands(deck: seq<Card>, players: seq<string>, start: int, base: nat, k: nat)
    requires |players| > 0 && k == 2 * |players| && base + k <= |deck|
    ensures HandsSoFar(deck, players, start, base, k) == HoleHands(deck, players, start, base)
  {
    DealtHands(deck, players, start, base, k);
  }

  /** Deal t of the two rounds is deal t of the first round, or deal t - n of the second. */
  lemma RoundIndex(t: int, n: int)
    requires 0 <= t < 2 * n
    ensures t % n == (if t < n then t else t - n)
  {
    if t < n {
      ModMultiple(t, 0, n);
    } else {
      ModMultiple(t - n, 1, n);
    }
  }

  /** A deck position belongs to the hand of the player its deal went to. */
  lemma {:induction false} HandSlotsMember(players: seq<string>, start: int, base: nat, p: string, k: nat, x: nat)
    requires |players| > 0
    ensures x in HandSlots(players, start, base, p, k) <==>
      base <= x < base + k && players[Seat(start, (x - base) % |players|, |players|)] == p
    decreases k
  {
    if k > 0 {
      HandSlotsMember(players, start, base, p, k - 1, x);
    }
  }

  /** With distinct names, the player in seat start + i gets the cards at
      positions base + i and base + n + i and no others. */
  lemma {:induction false} HandSlotsOfSeat(players: seq<string>, start: int, base: nat, i: int, k: nat)
    requires Distinct(players) && 0 <= i < |players| && k <= 2 * |players|
    ensures HandSlots(players, start, base, players[Seat(start, i, |players|)], k)
      == (if i < k then [base + i] else []) + (if |players| + i < k then [base + |players| + i] else [])
    decreases k
  {
    var n := |players|;
    if k > 0 {
      HandSlotsOfSeat(players, start, base, i, k - 1);
      var t := k - 1;
      RoundIndex(t, n);
      if t % n != i {
        OtherSeat(players, start, i, t % n);
      }
    }
  }

  /** Hole cards with distinct player names: the player in seat start + i
      holds exactly the cards at deck positions base + i and base + n + i. */
  lemma HoleHandsBySeat(deck: seq<Card>, players: seq<string>, start: int, base: nat, i: int)
    requires Distinct(players) && 0 <= i < |players| && base + 2 * |players| <= |deck|
    ensures var p := players[Seat(start, i, |players|)];
      p in HoleHands(deck, players, start, base)
      && HoleHands(deck, players, start, base)[p] == [deck[base + i], deck[base + |players| + i]]
  {
    HandSlotsOfSeat(players, start, base, i, 2 * |players|);
  }

  /** Deck positions drawn by the end of each phase. */
  function Draws(n: nat, phase: Phase): nat
  {
    match phase
    case Waiting => 0
    case Preflop => 2 * n
    case Flop => 2 * n + 4
    case Turn => 2 * n + 6
    case River | Showdown => 2 * n + 8
  }

  /** Deck positions of the burned cards by the end of each phase. */
  function BurnSlots(n: nat, phase: Phase): seq<nat>
  {
    match phase
    case Waiting | Preflop => []
    case Flop => [2 * n]
    case Turn => [2 * n, 2 * n + 4]
    case River | Showdown => [2 * n, 2 * n + 4, 2 * n + 6]
  }

  /** Deck positions of the board cards by the end of each phase. */
  function BoardSlots(n: nat, phase: Phase): seq<nat>
  {
    match phase
    case Waiting | Preflop => []
    case Flop => [2 * n + 1, 2 * n + 2, 2 * n + 3]
    case Turn => [2 * n + 1, 2 * n + 2, 2 * n + 3, 2 * n + 5]
    case River | Showdown => [2 * n + 1, 2 * n + 2, 2 * n + 3, 2 * n + 5, 2 * n + 7]
  }

  /** Burns and board cards come from distinct deck positions past the hole
      cards and before the pointer, which never passes 2n + 8. */
  lemma SlotsFacts(n: nat, phase: Phase)
    ensures var slots := BurnSlots(n, phase) + BoardSlots(n, phase);
      Distinct(slots) && forall k :: 0 <= k < |slots| ==> 2 * n <= slots[k] < Draws(n, phase)
    ensures Draws(n, phase) <= 2 * n + 8
    ensures |BoardSlots(n, phase)| == (match phase case Waiting | Preflop => 0 case Flop => 3 case Turn => 4 case _ => 5)
    ensures |BurnSlots(n, phase)| == (match phase case Waiting | Preflop => 0 case Flop => 1 case Turn => 2 case _ => 3)
  {
  }

  /* ---------------------------------------------------------------------
     The session record and its transitions.
     --------------------------------------------------------------------- */

  /** The session record, field by field. */
  datatype State = State(
    version: int, hostCode: string, infoMode: string, players: seq<string>, buttonIndex: int,
    phase: Phase, manualButton: bool, deck: seq<Card>, deckPointer: nat, burned: seq<Card>,
    hands: map<string, seq<Card>>, board: seq<Card>, equityByPhase: map<Phase, Snapshot>,
    lastCompletedPhase: Option<Phase>, displayEquities: seq<real>,
    displayHandRanks: map<string, string>, tieProbability: real)

  /** `host_code or generate_host_code()`. */
  function HostCodeOf(code: Option<string>, generated: string): string
  {
    if code.Some? && code.value != "" then code.value else generated
  }

  /** The record `start_new_game` builds: a hand not dealt yet. */
  function StartRecord(players: seq<string>, button: int, mode: string, manual: bool, code: string): State
  {
    State(0, code, mode, players, button, Waiting, manual, [], 0, [], map[], [], map[], None,
          Zeros(|players|), map[], 0.0)
  }

  /** A new hand: the record of `start_new_game`, a freshly shuffled deck,
      both rounds of hole cards dealt left of the button, and one version bump. */
  function NewHand(players: seq<string>, button: int, mode: string, manual: bool, code: string,
                   shuffled: seq<Card>): State
    requires |players| > 0 && 2 * |players| <= |shuffled|
  {
    StartRecord(players, button, mode, manual, code).(
      version := 1, phase := Preflop, deck := shuffled, deckPointer := 2 * |players|,
      hands := HoleHands(shuffled, players, Seat(button, 1, |players|), 0))
  }

  /** What every reachable session satisfies: 2 to 10 players, a button
      seat, a shuffled 52-card deck, and the pointer, hole cards, burns and
      board exactly those the phase has dealt from it. */
  ghost predicate ValidState(s: State)
  {
    && 2 <= |s.players| <= 10 && 0 <= s.buttonIndex < |s.players|
    && s.phase != Waiting
    && |s.deck| == 52 && IsShuffle(s.deck)
    && s.deckPointer == Draws(|s.players|, s.phase)
    && s.hands == HoleHands(s.deck, s.players, Seat(s.buttonIndex, 1, |s.players|), 0)
    && s.burned == Pick(s.deck, BurnSlots(|s.players|, s.phase))
    && s.board == Pick(s.deck, BoardSlots(|s.players|, s.phase))
    && |s.displayEquities| == |s.players|
  }

  /** The host's `advance` action. */
  function Advanced(s: State, shuffled: seq<Card>, generated: string): State
    requires ValidState(s) && IsShuffle(shuffled)
  {
    var n, p := |s.players|, s.deckPointer;
    ShuffleFacts(shuffled);
    if s.phase == Waiting || s.phase == Showdown then
      var next := if s.manualButton then s.buttonIndex else (s.buttonIndex - 1) % n;
      NewHand(s.players, next, s.infoMode, false, HostCodeOf(None, generated), shuffled)
    else if s.phase == Preflop then
      s.(version := s.version + 1, phase := Flop, deckPointer := p + 4, burned := s.burned + [s.deck[p]],
         board := [s.deck[p + 1], s.deck[p + 2], s.deck[p + 3]])
    else if s.phase == Flop then
      s.(version := s.version + 1, phase := Turn, deckPointer := p + 2, burned := s.burned + [s.deck[p]],
         board := s.board + [s.deck[p + 1]])
    else if s.phase == Turn then
      s.(version := s.version + 1, phase := River, deckPointer := p + 2, burned := s.burned + [s.deck[p]],
         board := s.board + [s.deck[p + 1]])
    else
      s.(version := s.version + 1, phase := Showdown)
  }

  /** The host's misdeal action `force_button`. */
  function Forced(s: State, seat: int, shuffled: seq<Card>, generated: string): State
    requires ValidState(s) && IsShuffle(shuffled)
  {
    ShuffleFacts(shuffled);
    NewHand(s.players, seat % |s.players|, s.infoMode, true, HostCodeOf(None, generated), shuffled)
  }

  /** Every name stripped, `[p.strip() for p in players]`. */
  function StripAll(names: seq<string>): (r: seq<string>)
    ensures |r| == |names| && forall i :: 0 <= i < |names| ==> r[i] == Strip(names[i])
  {
    seq(|names|, i requires 0 <= i < |names| => Strip(names[i]))
  }

  /** The table configuration form: 2 to 10 names (blank ones included), the
      button reduced mod n, DELAYED unless another mode is given. */
  function Configured(names: seq<string>, button: int, mode: Option<string>, shuffled: seq<Card>,
                      generated: string): Option<State>
    requires IsShuffle(shuffled)
  {
    if !(2 <= |names| <= 10) then None
    else
      ShuffleFacts(shuffled);
      Some(NewHand(StripAll(names), button % |names|, if mode.Some? then mode.value else INFO_DELAYED,
                   false, HostCodeOf(None, generated), shuffled))
  }

  /** A new hand on a shuffled deck is a valid session. */
  lemma NewHandValid(players: seq<string>, button: int, mode: string, manual: bool, code: string,
                     shuffled: seq<Card>)
    requires 2 <= |players| <= 10 && 0 <= button < |players| && IsShuffle(shuffled)
    ensures |shuffled| == 52
    ensures ValidState(NewHand(players, button, mode, manual, code, shuffled))
  {
    ShuffleFacts(shuffled);
  }

  /** The configuration form is refused exactly when it has fewer than 2 or
      more than 10 names; otherwise it starts a valid session at version 1,
      preflop, with the stripped names, button and mode it was given. */
  lemma ConfiguredFacts(names: seq<string>, button: int, mode: Option<string>, shuffled: seq<Card>,
                        generated: string)
    requires IsShuffle(shuffled)
    ensures Configured(names, button, mode, shuffled, generated).Some? <==> 2 <= |names| <= 10
    ensures var c := Configured(names, button, mode, shuffled, generated);
      c.Some? ==>
        (&& ValidState(c.value) && c.value.version == 1 && c.value.phase == Preflop
         && c.value.players == StripAll(names) && c.value.buttonIndex == button % |names|
         && (mode.None? ==> c.value.infoMode == INFO_DELAYED) && !c.value.manualButton
         && c.value.board == [] && c.value.hostCode == generated)
  {
    if 2 <= |names| <= 10 {
      NewHandValid(StripAll(names), button % |names|, if mode.Some? then mode.value else INFO_DELAYED,
                   false, generated, shuffled);
    }
  }

  /** `advance` keeps the session valid. */
  lemma AdvanceValid(s: State, shuffled: seq<Card>, generated: string)
    requires ValidState(s) && IsShuffle(shuffled)
    ensures ValidState(Advanced(s, shuffled, generated))
  {
    if s.phase == Showdown {
      ShowdownValid(s, shuffled, generated);
    } else if s.phase == River {
      RiverValid(s, shuffled, generated);
    } else {
      StreetValid(s, shuffled, generated);
    }
  }

  /** The new hand that `advance` starts after SHOWDOWN is a valid session. */
  lemma ShowdownValid(s: State, shuffled: seq<Card>, generated: string)
    requires ValidState(s) && IsShuffle(shuffled) && s.phase == Showdown
    ensures ValidState(Advanced(s, shuffled, generated))
  {
    NewHandValid(s.players, if s.manualButton then s.buttonIndex else (s.buttonIndex - 1) % |s.players|,
                 s.infoMode, false, generated, shuffled);
  }

  /** Moving from RIVER to SHOWDOWN draws nothing and keeps the session valid. */
  lemma RiverValid(s: State, shuffled: seq<Card>, generated: string)
    requires ValidState(s) && IsShuffle(shuffled) && s.phase == River
    ensures ValidState(Advanced(s, shuffled, generated))
  {
  }

  /** Burning one card and dealing the next street keeps the session valid. */
  lemma StreetValid(s: State, shuffled: seq<Card>, generated: string)
    requires ValidState(s) && IsShuffle(shuffled) && (s.phase == Preflop || s.phase == Flop || s.phase == Turn)
    ensures ValidState(Advanced(s, shuffled, generated))
  {
    var t := Advanced(s, shuffled, generated);
    var n := |s.players|;
    var next := NextPhase(s.phase);
    assert BurnSlots(n, next) == BurnSlots(n, s.phase) + [s.deckPointer];
    assert t.burned == Pick(s.deck, BurnSlots(n, next));
    assert t.board == Pick(s.deck, BoardSlots(n, next));
  }

  /** From SHOWDOWN, `advance` starts a new hand: the button stays if it was
      forced and otherwise moves one seat back; version 1, an empty board, the
      new shuffle, no forced button and a new host code. */
  lemma AdvanceFromShowdown(s: State, shuffled: seq<Card>, generated: string)
    requires ValidState(s) && IsShuffle(shuffled) && s.phase == Showdown
    ensures var t := Advanced(s, shuffled, generated);
      && t.phase == Preflop && t.players == s.players && t.infoMode == s.infoMode
      && t.buttonIndex == (if s.manualButton then s.buttonIndex else (s.buttonIndex - 1) % |s.players|)
      && !t.manualButton && t.version == 1 && t.board == [] && t.burned == [] && t.deck == shuffled
      && t.hostCode == generated
  {
  }

  /** Before SHOWDOWN, `advance` stays in the same hand: PREFLOP to TURN burn
      one card and deal the next street, RIVER only moves on, drawing nothing. */
  lemma AdvanceOnStreet(s: State, shuffled: seq<Card>, generated: string)
    requires ValidState(s) && IsShuffle(shuffled) && s.phase != Showdown
    ensures var t := Advanced(s, shuffled, generated);
      && t.phase == NextPhase(s.phase) && t.players == s.players && t.infoMode == s.infoMode
      && t.version == s.version + 1 && t.deck == s.deck && t.hands == s.hands
      && t.buttonIndex == s.buttonIndex && t.manualButton == s.manualButton && t.hostCode == s.hostCode
      && t.board[..|s.board|] == s.board
      && t.burned == s.burned + (if s.phase == River then [] else [s.deck[s.deckPointer]])
      && (s.phase == River ==> t.deckPointer == s.deckPointer && t.board == s.board)
  {
    if s.phase == Preflop {
      assert s.board == [];
    }
  }

  /** What `advance` does, in every phase: SHOWDOWN starts a new hand, any
      other phase moves on within the same hand. Every step moves to the next
      phase and keeps the players and the mode. */
  lemma AdvanceFacts(s: State, shuffled: seq<Card>, generated: string)
    requires ValidState(s) && IsShuffle(shuffled)
    ensures var t := Advanced(s, shuffled, generated);
      && t.phase == NextPhase(s.phase) && t.players == s.players && t.infoMode == s.infoMode
      && (s.phase == Showdown ==>
            && t.buttonIndex == (if s.manualButton then s.buttonIndex else (s.buttonIndex - 1) % |s.players|)
            && !t.manualButton && t.version == 1 && t.board == [] && t.burned == [] && t.deck == shuffled
            && t.hostCode == generated)
      && (s.phase != Showdown ==>
            && t.version == s.version + 1 && t.deck == s.deck && t.hands == s.hands
            && t.buttonIndex == s.buttonIndex && t.manualButton == s.manualButton && t.hostCode == s.hostCode
            && t.board[..|s.board|] == s.board
            && t.burned == s.burned + (if s.phase == River then [] else [s.deck[s.deckPointer]]))
      && (s.phase == River ==> t.deckPointer == s.deckPointer && t.board == s.board)
  {
    if s.phase == Showdown {
      AdvanceFromShowdown(s, shuffled, generated);
    } else {
      AdvanceOnStreet(s, shuffled, generated);
    }
  }

  /** The misdeal action keeps the session valid and starts a new hand with
      the button on the requested seat (mod n), marked as forced, at version 1. */
  lemma ForcedFacts(s: State, seat: int, shuffled: seq<Card>, generated: string)
    requires ValidState(s) && IsShuffle(shuffled)
    ensures var t := Forced(s, seat, shuffled, generated);
      && ValidState(t) && t.buttonIndex == seat % |s.players| && t.manualButton
      && t.phase == Preflop && t.board == [] && t.burned == [] && t.version == 1
      && t.deck == shuffled && t.players == s.players
      && t.hands == HoleHands(shuffled, s.players, Seat(seat % |s.players|, 1, |s.players|), 0)
      && t.hostCode == generated
  {
    NewHandValid(s.players, seat % |s.players|, s.infoMode, true, generated, shuffled);
  }

  /** As written, `advance` after SHOWDOWN and `force_button` call
      `start_new_game` without the session's code, so the code a host logged
      in with stops opening the host page whenever a different one is
      generated. */
  lemma NewHandReplacesCode(s: State, seat: int, shuffled: seq<Card>, generated: string)
    requires ValidState(s) && IsShuffle(shuffled) && generated != s.hostCode
    ensures s.phase == Showdown ==> Advanced(s, shuffled, generated).hostCode != s.hostCode
    ensures Forced(s, seat, shuffled, generated).hostCode != s.hostCode
  {
  }

  /** `advance` as `start_new_game`'s own documentation asks: the new hand
      is given the session's host code. */
  function AdvancedKeepingCode(s: State, shuffled: seq<Card>, generated: string): State
    requires ValidState(s) && IsShuffle(shuffled)
  {
    if s.phase == Showdown then
      ShuffleFacts(shuffled);
      var next := if s.manualButton then s.buttonIndex else (s.buttonIndex - 1) % |s.players|;
      NewHand(s.players, next, s.infoMode, false, HostCodeOf(Some(s.hostCode), generated), shuffled)
    else Advanced(s, shuffled, generated)
  }

  /** `force_button` with the session's host code passed on. */
  function ForcedKeepingCode(s: State, seat: int, shuffled: seq<Card>, generated: string): State
    requires ValidState(s) && IsShuffle(shuffled)
  {
    ShuffleFacts(shuffled);
    NewHand(s.players, seat % |s.players|, s.infoMode, true, HostCodeOf(Some(s.hostCode), generated), shuffled)
  }

  /** With the code passed on, every `advance` and `force_button` keeps the
      session's (non-empty) host code and otherwise does what the code as
      written does. */
  lemma HostCodeKept(s: State, seat: int, shuffled: seq<Card>, generated: string)
    requires ValidState(s) && IsShuffle(shuffled)
    ensures s.phase != Showdown ==> AdvancedKeepingCode(s, shuffled, generated) == Advanced(s, shuffled, generated)
    ensures var code := if s.hostCode != "" then s.hostCode else generated;
      && (s.phase == Showdown ==>
            AdvancedKeepingCode(s, shuffled, generated) == Advanced(s, shuffled, generated).(hostCode := code))
      && ForcedKeepingCode(s, seat, shuffled, generated) == Forced(s, seat, shuffled, generated).(hostCode := code)
    ensures s.hostCode != "" ==>
      && AdvancedKeepingCode(s, shuffled, generated).hostCode == s.hostCode
      && ForcedKeepingCode(s, seat, shuffled, generated).hostCode == s.hostCode
  {
  }

  /** k `advance` actions in a row, all on the same shuffle and code. */
  function AdvanceTimes(s: State, k: nat, shuffled: seq<Card>, generated: string): (t: State)
    requires ValidState(s) && IsShuffle(shuffled)
    ensures ValidState(t)
    decreases k
  {
    if k == 0 then s
    else
      AdvanceValid(s, shuffled, generated);
      AdvanceTimes(Advanced(s, shuffled, generated), k - 1, shuffled, generated)
  }

  /** One hand from PREFLOP: four advances reach SHOWDOWN with boards of 3,
      4, 5 and 5 cards; the fifth starts the next hand. */
  lemma HandLifecycle(s: State, shuffled: seq<Card>, generated: string)
    requires ValidState(s) && IsShuffle(shuffled) && s.phase == Preflop
    ensures |AdvanceTimes(s, 1, shuffled, generated).board| == 3
    ensures |AdvanceTimes(s, 2, shuffled, generated).board| == 4
    ensures |AdvanceTimes(s, 3, shuffled, generated).board| == 5
    ensures AdvanceTimes(s, 4, shuffled, generated).phase == Showdown
    ensures |AdvanceTimes(s, 4, shuffled, generated).board| == 5
    ensures var t := AdvanceTimes(s, 5, shuffled, generated);
      t.phase == Preflop && t.board == [] && t.version == 1
  {
    var a1 := AdvanceTimes(s, 1, shuffled, generated);
    var a2 := AdvanceTimes(a1, 1, shuffled, generated);
    var a3 := AdvanceTimes(a2, 1, shuffled, generated);
    var a4 := AdvanceTimes(a3, 1, shuffled, generated);
    AdvanceTimesSplit(s, 1, shuffled, generated);
    AdvanceTimesSplit(s, 2, shuffled, generated);
    AdvanceTimesSplit(s, 3, shuffled, generated);
    AdvanceTimesSplit(s, 4, shuffled, generated);
    AdvanceOnce(s, shuffled, generated);
    AdvanceOnce(a1, shuffled, generated);
    AdvanceOnce(a2, shuffled, generated);
    AdvanceOnce(a3, shuffled, generated);
    AdvanceOnce(a4, shuffled, generated);
    AdvanceFromShowdown(a4, shuffled, generated);
  }

  /** One step of `AdvanceTimes` is `advance`: the next phase, with the board
      that phase has dealt. */
  lemma AdvanceOnce(s: State, shuffled: seq<Card>, generated: string)
    requires ValidState(s) && IsShuffle(shuffled)
    ensures var t := AdvanceTimes(s, 1, shuffled, generated);
      && t == Advanced(s, shuffled, generated) && t.phase == NextPhase(s.phase)
      && |t.board| == |BoardSlots(|s.players|, NextPhase(s.phase))|
  {
    AdvanceValid(s, shuffled, generated);
    AdvanceFacts(s, shuffled, generated);
  }

  lemma AdvanceTimesSplit(s: State, k: nat, shuffled: seq<Card>, generated: string)
    requires ValidState(s) && IsShuffle(shuffled)
    ensures AdvanceTimes(s, k + 1, shuffled, generated)
      == AdvanceTimes(AdvanceTimes(s, k, shuffled, generated), 1, shuffled, generated)
    decreases k
  {
    if k > 0 {
      AdvanceValid(s, shuffled, generated);
      AdvanceTimesSplit(Advanced(s, shuffled, generated), k - 1, shuffled, generated);
    }
  }

  /** After a misdeal, the natural advance that ends the hand (the fifth)
      does not move the button again. */
  lemma MisdealButtonStays(s: State, seat: int, forcedDeck: seq<Card>, shuffled: seq<Card>, generated: string)
    requires ValidState(s) && IsShuffle(forcedDeck) && IsShuffle(shuffled)
    ensures var f := Forced(s, seat, forcedDeck, generated);
      ValidState(f) && AdvanceTimes(f, 5, shuffled, generated).buttonIndex == seat % |s.players|
  {
    var f := Forced(s, seat, forcedDeck, generated);
    ForcedFacts(s, seat, forcedDeck, generated);
    var a1 := AdvanceTimes(f, 1, shuffled, generated);
    AdvanceFacts(f, shuffled, generated);
    var a2 := AdvanceTimes(a1, 1, shuffled, generated);
    AdvanceFacts(a1, shuffled, generated);
    var a3 := AdvanceTimes(a2, 1, shuffled, generated);
    AdvanceFacts(a2, shuffled, generated);
    var a4 := AdvanceTimes(a3, 1, shuffled, generated);
    AdvanceFacts(a3, shuffled, generated);
    AdvanceFacts(a4, shuffled, generated);
    assert a4.phase == Showdown && a4.manualButton && a4.buttonIndex == seat % |s.players|;
    AdvanceTimesSplit(f, 1, shuffled, generated);
    AdvanceTimesSplit(f, 2, shuffled, generated);
    AdvanceTimesSplit(f, 3, shuffled, generated);
    AdvanceTimesSplit(f, 4, shuffled, generated);
  }

  /** In every valid session the 52-card deck is never exhausted (at most 28
      draws), the burned and board cards are distinct valid cards with the
      counts of the phase, and the board only ever grows from the flop. */
  lemma BoardFacts(s: State)
    requires ValidState(s)
    ensures s.deckPointer <= 28 < |s.deck|
    ensures Distinct(s.burned + s.board) && AllValid(s.burned + s.board)
    ensures |s.board| == (match s.phase case Waiting | Preflop => 0 case Flop => 3 case Turn => 4 case _ => 5)
    ensures |s.burned| == (match s.phase case Waiting | Preflop => 0 case Flop => 1 case Turn => 2 case _ => 3)
  {
    var n := |s.players|;
    ShuffleFacts(s.deck);
    SlotsFacts(n, s.phase);
    var slots := BurnSlots(n, s.phase) + BoardSlots(n, s.phase);
    assert s.burned + s.board == Pick(s.deck, slots);
    PickDistinct(s.deck, slots);
  }

  /** In every valid session every player has a hand. */
  lemma HoleKeys(s: State)
    requires ValidState(s)
    ensures s.hands.Keys == Elems(s.players)
  {
  }

  /** Each player's hole cards are distinct valid cards. */
  lemma HoleCardsValid(s: State)
    requires ValidState(s)
    ensures forall p :: p in s.hands ==> Distinct(s.hands[p]) && AllValid(s.hands[p])
  {
    var n := |s.players|;
    var start := Seat(s.buttonIndex, 1, n);
    ShuffleFacts(s.deck);
    forall p | p in s.hands ensures Distinct(s.hands[p]) {
      PickDistinct(s.deck, HandSlots(s.players, start, 0, p, 2 * n));
    }
  }

  /** No hole card is burned or on the board. */
  lemma HolesApartFromBoard(s: State)
    requires ValidState(s)
    ensures forall p, c :: p in s.hands && c in s.hands[p] ==> c !in s.burned && c !in s.board
  {
    var n := |s.players|;
    var start := Seat(s.buttonIndex, 1, n);
    var burns, boards := BurnSlots(n, s.phase), BoardSlots(n, s.phase);
    ShuffleFacts(s.deck);
    SlotsFacts(n, s.phase);
    assert forall j :: 0 <= j < |burns| ==> burns[j] == (burns + boards)[j];
    assert forall j :: 0 <= j < |boards| ==> boards[j] == (burns + boards)[|burns| + j];
    HandsApartFrom(s.deck, s.players, start, 0, 2 * n, burns);
    HandsApartFrom(s.deck, s.players, start, 0, 2 * n, boards);
  }

  /** Cards dealt into hands are not the cards at positions past the deal. */
  lemma HandsApartFrom(deck: seq<Card>, players: seq<string>, start: int, base: nat, k: nat, slots: seq<nat>)
    requires |players| > 0 && base + k <= |deck| && Distinct(deck)
    requires forall j :: 0 <= j < |slots| ==> base + k <= slots[j] < |deck|
    ensures var m := HandsBySlots(deck, players, start, base, k);
      forall p, c :: p in m && c in m[p] ==> c !in Pick(deck, slots)
  {
    var m := HandsBySlots(deck, players, start, base, k);
    forall p, c | p in m && c in m[p] ensures c !in Pick(deck, slots) {
      var a := HandSlots(players, start, base, p, k);
      assert Apart(a, slots);
      PickApart(deck, a, slots, c);
    }
  }

  /** No card sits in two players' hands. */
  lemma HolesDisjoint(s: State)
    requires ValidState(s)
    ensures forall p, q, c :: p in s.hands && q in s.hands && p != q && c in s.hands[p] ==> c !in s.hands[q]
  {
    ShuffleFacts(s.deck);
    HandsDisjoint(s.deck, s.players, Seat(s.buttonIndex, 1, |s.players|), 0, 2 * |s.players|);
  }

  /** Cards from a deck without repeats, dealt to different players, never coincide. */
  lemma HandsDisjoint(deck: seq<Card>, players: seq<string>, start: int, base: nat, k: nat)
    requires |players| > 0 && base + k <= |deck| && Distinct(deck)
    ensures var m := HandsBySlots(deck, players, start, base, k);
      forall p, q, c :: p in m && q in m && p != q && c in m[p] ==> c !in m[q]
  {
    var m := HandsBySlots(deck, players, start, base, k);
    forall p, q, c | p in m && q in m && p != q && c in m[p] ensures c !in m[q] {
      var a := HandSlots(players, start, base, p, k);
      var b := HandSlots(players, start, base, q, k);
      SlotsApart(players, start, base, p, q, k);
      PickApart(deck, a, b, c);
    }
  }

  /** Different players get different deck positions. */
  lemma SlotsApart(players: seq<string>, start: int, base: nat, p: string, q: string, k: nat)
    requires |players| > 0 && p != q
    ensures Apart(HandSlots(players, start, base, p, k), HandSlots(players, start, base, q, k))
  {
    var a, b := HandSlots(players, start, base, p, k), HandSlots(players, start, base, q, k);
    forall i, j | 0 <= i < |a| && 0 <= j < |b| ensures a[i] != b[j] {
      HandSlotsMember(players, start, base, p, k, a[i]);
      HandSlotsMember(players, start, base, q, k, b[j]);
    }
  }

  /** With distinct names every hand has exactly two cards. */
  lemma HoleTwoCards(s: State)
    requires ValidState(s) && Distinct(s.players)
    ensures forall p :: p in s.hands ==> |s.hands[p]| == 2
  {
    var n := |s.players|;
    var start := Seat(s.buttonIndex, 1, n);
    forall p | p in s.hands ensures |s.hands[p]| == 2 {
      var m :| 0 <= m < n && s.players[m] == p;
      ModReach(start, m, n);
      HoleHandsBySeat(s.deck, s.players, start, 0, (m - start) % n);
    }
  }

  /* ---------------------------------------------------------------------
     Showdown.
     --------------------------------------------------------------------- */

  /** Each seat's evaluator score against the board (lower is better). */
  function SeatScores(players: seq<string>, hands: map<string, seq<Card>>, board: seq<Card>,
                      evaluate: (seq<Card>, seq<Card>) -> int): (scores: seq<int>)
    requires forall p :: p in players ==> p in hands
    ensures |scores| == |players|
  {
    seq(|players|, i requires 0 <= i < |players| => evaluate(hands[players[i]], board))
  }

  /** The names holding the best score. */
  function WinnerNames(players: seq<string>, scores: seq<int>): set<string>
    requires |scores| == |players|
  {
    set i | 0 <= i < |players| && IsBest(scores, i) :: players[i]
  }

  /** Each seat's displayed equity at showdown: an equal share of 100 for
      every winning name, 0 for the rest. */
  function ShowdownShares(players: seq<string>, scores: seq<int>): (shares: seq<real>)
    requires |scores| == |players| > 0
    ensures |shares| == |players|
  {
    var k := Winners(scores)[0];
    assert players[k] in WinnerNames(players, scores);
    var w := WinnerNames(players, scores);
    seq(|players|, i requires 0 <= i < |players| => if players[i] in w then 100.0 / |w| as real else 0.0)
  }

  /** The showdown winners are the names holding the lowest score, and there
      is at least one. */
  lemma ShowdownWinners(players: seq<string>, hands: map<string, seq<Card>>, board: seq<Card>,
                        evaluate: (seq<Card>, seq<Card>) -> int)
    requires |players| > 0 && forall p :: p in players ==> p in hands
    ensures var scores := SeatScores(players, hands, board, evaluate);
      |WinnerNames(players, scores)| >= 1
      && forall i :: 0 <= i < |players| ==> (players[i] in WinnerNames(players, scores) <==> IsBest(scores, i))
  {
    var scores := SeatScores(players, hands, board, evaluate);
    var w := WinnerNames(players, scores);
    var k := Winners(scores)[0];
    assert players[k] in w;
    forall i | 0 <= i < |players| ensures players[i] in w <==> IsBest(scores, i) {
      if players[i] in w {
        var j :| 0 <= j < |players| && IsBest(scores, j) && players[j] == players[i];
        assert scores[i] == scores[j];
      }
    }
  }

  /** With distinct names, a seat's name wins exactly when the seat is one
      of the co-best. */
  lemma WinnerNamesSeat(players: seq<string>, scores: seq<int>)
    requires |players| == |scores| > 0 && Distinct(players)
    ensures forall i :: 0 <= i < |players| ==> (players[i] in WinnerNames(players, scores) <==> i in Winners(scores))
  {
    var w := WinnerNames(players, scores);
    forall i | 0 <= i < |players| ensures players[i] in w <==> IsBest(scores, i) {
      if players[i] in w {
        var j :| 0 <= j < |players| && IsBest(scores, j) && players[j] == players[i];
      }
    }
  }

  /** The winning names are the names at the co-best seats. */
  lemma WinnerNamesPicked(players: seq<string>, scores: seq<int>)
    requires |players| == |scores| > 0
    ensures Elems(Pick(players, Winners(scores))) == WinnerNames(players, scores)
  {
    var w := WinnerNames(players, scores);
    var ws := Winners(scores);
    var names := Pick(players, ws);
    forall p | p in w ensures p in names {
      var i :| 0 <= i < |players| && IsBest(scores, i) && players[i] == p;
      assert i in ws;
      var j :| 0 <= j < |ws| && ws[j] == i;
      assert names[j] == p;
    }
    forall p | p in names ensures p in w {
      var j :| 0 <= j < |names| && names[j] == p;
      assert IsBest(scores, ws[j]);
    }
  }

  /** With distinct names, the winning names are as many as the co-best
      seats. */
  lemma WinnerCount(players: seq<string>, scores: seq<int>)
    requires |players| == |scores| > 0 && Distinct(players)
    ensures |WinnerNames(players, scores)| == |Winners(scores)|
    ensures forall i :: 0 <= i < |players| ==> (players[i] in WinnerNames(players, scores) <==> i in Winners(scores))
  {
    WinnerNamesSeat(players, scores);
    WinnerNamesPicked(players, scores);
    PickDistinct(players, Winners(scores));
    DistinctElemsCard(Pick(players, Winners(scores)));
  }

  /** The showdown split with distinct names: every winner gets 100 divided
      by their number, everyone else 0, so the shares add up to 100; the tie
      figure is 100 exactly when two or more seats share the best score. */
  lemma ShowdownSplit(players: seq<string>, scores: seq<int>)
    requires |players| == |scores| > 0 && Distinct(players)
    ensures ShowdownShares(players, scores) == Marked(|players|, Winners(scores), 100.0 / |Winners(scores)| as real)
    ensures Sum(ShowdownShares(players, scores)) == 100.0
    ensures |WinnerNames(players, scores)| > 1 <==> |Winners(scores)| >= 2
  {
    var ws := Winners(scores);
    WinnerCount(players, scores);
    var c := 100.0 / |ws| as real;
    var shares := ShowdownShares(players, scores);
    forall i | 0 <= i < |players| ensures shares[i] == Marked(|players|, ws, c)[i] {
    }
    SumMarked(|players|, ws, c);
    PercentCopies(|ws|);
  }

  /** k equal shares of 100/k make up 100. */
  lemma PercentCopies(k: nat)
    requires k > 0
    ensures Copies(k, 100.0 / k as real) == 100.0
  {
    CopiesScaled(k, 100.0 / k as real);
  }

  /* ---------------------------------------------------------------------
     What the public state endpoint publishes.
     --------------------------------------------------------------------- */

  /** `game_state_json` as written: the whole record, with the hands and the
      hand descriptions emptied in DELAYED mode. */
  function PublishAsWritten(s: State): (view: State)
    ensures s.infoMode == INFO_DELAYED ==> view.hands == map[] && view.displayHandRanks == map[]
    ensures s.infoMode != INFO_DELAYED ==> view == s
  {
    if s.infoMode == INFO_DELAYED then s.(hands := map[], displayHandRanks := map[]) else s
  }

  /** What the as-written view still gives away: the host code that unlocks
      the host controls, and in DELAYED mode the shuffled deck, from which
      anyone can recompute every hidden hand. */
  lemma AsWrittenViewLeaks(s: State)
    requires ValidState(s) && s.infoMode == INFO_DELAYED
    ensures var view := PublishAsWritten(s);
      && view.hands == map[] && view.hostCode == s.hostCode
      && |view.deck| == 52 && |view.players| > 0
      && HoleHands(view.deck, view.players, Seat(view.buttonIndex, 1, |view.players|), 0) == s.hands
  {
  }

  /** What the as-written view gives away in every mode: the deck and its
      pointer, from which anyone reads the next street's cards before the
      host deals them. */
  lemma AsWrittenViewShowsNextStreet(s: State, shuffled: seq<Card>, generated: string)
    requires ValidState(s) && IsShuffle(shuffled) && (s.phase == Preflop || s.phase == Flop || s.phase == Turn)
    ensures var view, p := PublishAsWritten(s), s.deckPointer;
      s.phase == Preflop ==>
        && view.deckPointer == p && p + 4 <= |view.deck|
        && Advanced(s, shuffled, generated).board == view.board + view.deck[p + 1..p + 4]
    ensures var view, p := PublishAsWritten(s), s.deckPointer;
      s.phase != Preflop ==>
        && view.deckPointer == p && p + 2 <= |view.deck|
        && Advanced(s, shuffled, generated).board == view.board + view.deck[p + 1..p + 2]
  {
    AsWrittenKeepsDeck(s);
    if s.phase == Preflop {
      FlopShown(s, shuffled, generated);
    } else {
      StreetCardShown(s, shuffled, generated);
    }
  }

  /** The as-written view keeps the deck, the pointer and the board. */
  lemma AsWrittenKeepsDeck(s: State)
    ensures var view := PublishAsWritten(s);
      view.deck == s.deck && view.deckPointer == s.deckPointer && view.board == s.board
  {
  }

  /** Before the flop, the three cards after the next burn are the flop. */
  lemma FlopShown(s: State, shuffled: seq<Card>, generated: string)
    requires ValidState(s) && IsShuffle(shuffled) && s.phase == Preflop
    ensures var p := s.deckPointer;
      p + 4 <= |s.deck| && Advanced(s, shuffled, generated).board == s.board + s.deck[p + 1..p + 4]
  {
    var p := s.deckPointer;
    assert s.board == [];
    assert s.deck[p + 1..p + 4] == [s.deck[p + 1], s.deck[p + 2], s.deck[p + 3]];
  }

  /** On the flop and the turn, the card after the next burn is the next street. */
  lemma StreetCardShown(s: State, shuffled: seq<Card>, generated: string)
    requires ValidState(s) && IsShuffle(shuffled) && (s.phase == Flop || s.phase == Turn)
    ensures var p := s.deckPointer;
      p + 2 <= |s.deck| && Advanced(s, shuffled, generated).board == s.board + s.deck[p + 1..p + 2]
  {
    var p := s.deckPointer;
    assert s.deck[p + 1..p + 2] == [s.deck[p + 1]];
  }

  /** `game_state_json` as evidently intended: never the host code, never
      the undealt deck, and in DELAYED mode neither the hands nor the hand
      descriptions. */
  function Publish(s: State): (view: State)
    ensures view.hostCode == "" && view.deck == []
    ensures s.infoMode == INFO_DELAYED ==> view.hands == map[] && view.displayHandRanks == map[]
    ensures view.(hostCode := s.hostCode, deck := s.deck) == PublishAsWritten(s)
  {
    var open := s.(hostCode := "", deck := []);
    if s.infoMode == INFO_DELAYED then open.(hands := map[], displayHandRanks := map[]) else open
  }

  /** Non-interference of the corrected view: in DELAYED mode two sessions
      that differ only in their hole cards, hand descriptions, deck and host
      code publish the same thing. */
  lemma PublishHidesCards(s: State, hands: map<string, seq<Card>>, ranks: map<string, string>,
                          deck: seq<Card>, code: string)
    requires s.infoMode == INFO_DELAYED
    ensures Publish(s) == Publish(s.(hands := hands, displayHandRanks := ranks, deck := deck, hostCode := code))
  {
  }

  /** Non-interference of the corrected view in every mode: two sessions
      that differ only in the cards not yet drawn, `deck[deck_pointer:]`,
      publish the same thing. */
  lemma PublishHidesUpcoming(s: State, t: State)
    requires s.deckPointer <= |s.deck| && |t.deck| == |s.deck|
    requires t.deck[..s.deckPointer] == s.deck[..s.deckPointer] && t == s.(deck := t.deck)
    ensures Publish(s) == Publish(t)
  {
  }

  /** The corrected view still shows everything else the audience is meant to
      see: outside DELAYED mode it differs from the session only in the host
      code and the undealt deck. */
  lemma PublishFullMode(s: State)
    requires s.infoMode != INFO_DELAYED
    ensures Publish(s) == s.(hostCode := "", deck := [])
  {
  }
  /** The `scores` dictionary of `resolve_showdown`: every player's hand
      scored against the board. */
  method ScoreHands(players: seq<string>, hands: map<string, seq<Card>>, board: seq<Card>,
                    evaluate: (seq<Card>, seq<Card>) -> int) returns (scores: map<string, int>)
    requires forall p :: p in players ==> p in hands
    ensures forall p :: p in scores <==> p in players
    ensures forall p :: p in scores ==> scores[p] == evaluate(hands[p], board)
  {
    scores := map[];
    for i := 0 to |players|
      invariant forall p :: p in scores <==> p in players[..i]
      invariant forall p :: p in scores ==> scores[p] == evaluate(hands[p], board)
    {
      var p := players[i];
      scores := scores[p := evaluate(hands[p], board)];
    }
  }

  /** The names whose score in the dictionary is the lowest are the names
      at the co-best seats. */
  lemma ScoreMapWinners(players: seq<string>, scores: map<string, int>, seatScores: seq<int>)
    requires |players| == |seatScores| > 0
    requires forall p :: p in scores <==> p in players
    requires forall i :: 0 <= i < |players| ==> scores[players[i]] == seatScores[i]
    ensures (set p | p in scores && scores[p] == Min(seatScores)) == WinnerNames(players, seatScores)
  {
    var best := Min(seatScores);
    forall p | p in scores && scores[p] == best ensures p in WinnerNames(players, seatScores) {
      var i :| 0 <= i < |players| && players[i] == p;
      assert IsBest(seatScores, i);
    }
  }

  /** The displayed figures `resolve_showdown` computes: the lowest score
      wins, every winning name gets an equal share of 100, and the tie figure
      is 100 when more than one name wins. */
  method ShowdownDisplay(players: seq<string>, hands: map<string, seq<Card>>, board: seq<Card>,
                         evaluate: (seq<Card>, seq<Card>) -> int) returns (equities: seq<real>, tie: real)
    requires |players| > 0 && forall p :: p in players ==> p in hands
    ensures var scores := SeatScores(players, hands, board, evaluate);
      equities == ShowdownShares(players, scores)
      && tie == if |WinnerNames(players, scores)| > 1 then 100.0 else 0.0
  {
    var scores := ScoreHands(players, hands, board, evaluate);
    ghost var seatScores := SeatScores(players, hands, board, evaluate);
    var values := seq(|players|, i requires 0 <= i < |players| => scores[players[i]]);
    assert values == seatScores;
    var best := Min(values);
    var winners := set p | p in scores && scores[p] == best;
    ScoreMapWinners(players, scores, seatScores);
    ShowdownWinners(players, hands, board, evaluate);
    var share := 100.0 / |winners| as real;
    equities := seq(|players|, i requires 0 <= i < |players| => if players[i] in winners then share else 0.0);
    tie := if |winners| > 1 then 100.0 else 0.0;
  }

  /** The session after both rounds of hole cards: the dealt dictionary is
      the hole hands and the pointer has moved past them. */
  lemma HoleDealState(s: State, t: State, dealt: map<string, seq<Card>>)
    requires |s.players| > 0 && s.deckPointer + 2 * |s.players| <= |s.deck|
    requires t == s.(deckPointer := s.deckPointer + 0 + |s.players| + |s.players|)
    requires dealt == HandsSoFar(s.deck, s.players, Seat(s.buttonIndex, 1, |s.players|), s.deckPointer,
                                 |s.players| + |s.players|)
    ensures t.(hands := dealt, phase := Preflop)
      == s.(hands := HoleHands(s.deck, s.players, Seat(s.buttonIndex, 1, |s.players|), s.deckPointer),
            deckPointer := s.deckPointer + 2 * |s.players|, phase := Preflop)
  {
    DealtHoleHands(s.deck, s.players, Seat(s.buttonIndex, 1, |s.players|), s.deckPointer, |s.players| + |s.players|);
  }

  /* ---------------------------------------------------------------------
     The global session object and the host's actions on it.
     --------------------------------------------------------------------- */

  /** The single table's session: the `game_state` dictionary, which every
      handler updates in place. */
  class Game {
    var state: State

    ghost predicate Valid()
      reads this
    {
      ValidState(state)
    }

    /** A configured table: `start_new_game` with a generated host code, then
        the shuffle, the hole cards and one version bump. */
    constructor Configure(names: seq<string>, button: int, mode: string, shuffled: seq<Card>, generated: string)
      requires 2 <= |names| <= 10 && 0 <= button < |names| && IsShuffle(shuffled) && |shuffled| == 52
      ensures state == NewHand(names, button, mode, false, generated, shuffled)
      ensures Valid()
    {
      state := StartRecord(names, button, mode, false, generated);
      new;
      Redeal(names, button, mode, false, shuffled, generated);
      BumpVersion();
      NewHandValid(names, button, mode, false, generated, shuffled);
    }

    /** `game_state.update(start_new_game(...))`: every entry replaced by the
        new record's; a missing host code is generated. */
    method StartNewGame(newPlayers: seq<string>, newButton: int, mode: string, manual: bool,
                        code: Option<string>, generated: string)
      modifies this
      ensures state == StartRecord(newPlayers, newButton, mode, manual, HostCodeOf(code, generated))
    {
      var hostCode := if code.Some? && code.value != "" then code.value else generated;
      state := State(0, hostCode, mode, newPlayers, newButton, Waiting, manual, [], 0, [], map[], [],
                     map[], None, Zeros(|newPlayers|), map[], 0.0);
    }

    /** `start_new_game`, `scan_full_deck_sim` and `deal_hole_cards`, the
        sequence every new hand begins with; the version bump follows. */
    method Redeal(newPlayers: seq<string>, newButton: int, mode: string, manual: bool,
                  shuffled: seq<Card>, generated: string)
      requires |newPlayers| > 0 && IsShuffle(shuffled) && 2 * |newPlayers| <= |shuffled|
      modifies this
      ensures state == NewHand(newPlayers, newButton, mode, manual, HostCodeOf(None, generated), shuffled).(version := 0)
    {
      StartNewGame(newPlayers, newButton, mode, manual, None, generated);
      ScanFullDeckSim(shuffled);
      DealHoleCards();
    }

    /** `bump_version`. */
    method BumpVersion()
      modifies this
      ensures state == old(state).(version := old(state).version + 1)
    {
      state := state.(version := state.version + 1);
    }

    /** `scan_full_deck_sim`: a freshly shuffled deck, read from the top. */
    method ScanFullDeckSim(shuffled: seq<Card>)
      requires IsShuffle(shuffled)
      modifies this
      ensures state == old(state).(deck := shuffled, deckPointer := 0, burned := [])
    {
      state := state.(deck := shuffled, deckPointer := 0, burned := []);
    }

    /** `scan_next_card`: the card under the pointer; the pointer moves on. */
    method ScanNextCard() returns (card: Card)
      requires state.deckPointer < |state.deck|
      modifies this
      ensures card == old(state).deck[old(state).deckPointer]
      ensures state == old(state).(deckPointer := old(state).deckPointer + 1)
    {
      card := state.deck[state.deckPointer];
      state := state.(deckPointer := state.deckPointer + 1);
    }

    /** `burn_card`. */
    method BurnCard()
      requires state.deckPointer < |state.deck|
      modifies this
      ensures var s := old(state);
        state == s.(deckPointer := s.deckPointer + 1, burned := s.burned + [s.deck[s.deckPointer]])
    {
      var card := ScanNextCard();
      state := state.(burned := state.burned + [card]);
    }

    /** One deal of `deal_hole_cards`: the card under the pointer goes to
        the hand of the player in seat start + i, the seat deal t reaches. */
    method DealTo(i: int, dealt: map<string, seq<Card>>, players: seq<string>, start: int,
                  ghost deck: seq<Card>, ghost base: nat, ghost t: nat) returns (dealt': map<string, seq<Card>>)
      requires 0 <= i < |players| && t % |players| == i
      requires state.deck == deck && state.deckPointer == base + t < |deck|
      requires dealt == HandsSoFar(deck, players, start, base, t)
      modifies this
      ensures state == old(state).(deckPointer := base + (t + 1))
      ensures dealt' == HandsSoFar(deck, players, start, base, t + 1)
    {
      var p := players[Seat(start, i, |players|)];
      DealStep(deck, players, start, base, t, i);
      var card := ScanNextCard();
      dealt' := dealt[p := dealt[p] + [card]];
    }

    /** One round of `deal_hole_cards`: a card for every seat in turn,
        starting at seat `start`; the round's first deal is deal t0. */
    method DealRound(dealt: map<string, seq<Card>>, players: seq<string>, start: int,
                     ghost deck: seq<Card>, ghost base: nat, ghost t0: nat) returns (dealt': map<string, seq<Card>>)
      requires |players| > 0 && (t0 == 0 || t0 == |players|)
      requires state.deck == deck && state.deckPointer == base + t0 && base + 2 * |players| <= |deck|
      requires dealt == HandsSoFar(deck, players, start, base, t0)
      modifies this
      ensures state == old(state).(deckPointer := base + t0 + |players|)
      ensures dealt' == HandsSoFar(deck, players, start, base, t0 + |players|)
    {
      var n := |players|;
      dealt' := dealt;
      var i := 0;
      ghost var t := t0;
      while i < n
        invariant i <= n && t == t0 + i
        invariant state == old(state).(deckPointer := base + t)
        invariant dealt' == HandsSoFar(deck, players, start, base, t)
      {
        RoundIndex(t, n);
        dealt' := DealTo(i, dealt', players, start, deck, base, t);
        i, t := i + 1, t + 1;
      }
      assert i == n;
    }

    /** `deal_hole_cards`: two rounds of one card per seat, starting left of
        the button. */
    method DealHoleCards()
      requires |state.players| > 0 && state.deckPointer + 2 * |state.players| <= |state.deck|
      modifies this
      ensures var s := old(state);
        state == s.(hands := HoleHands(s.deck, s.players, Seat(s.buttonIndex, 1, |s.players|), s.deckPointer),
                    deckPointer := s.deckPointer + 2 * |s.players|, phase := Preflop)
    {
      var players := state.players;
      var n := |players|;
      var start := Seat(state.buttonIndex, 1, n);
      ghost var deck := state.deck;
      ghost var base := state.deckPointer;
      var dealt: map<string, seq<Card>> := map p | p in players :: [];
      dealt := DealRound(dealt, players, start, deck, base, 0);
      dealt := DealRound(dealt, players, start, deck, base, n);
      HoleDealState(old(state), state, dealt);
      state := state.(hands := dealt, phase := Preflop);
    }

    /** `deal_flop`: burn one, then three cards make the board. */
    method DealFlop()
      requires state.deckPointer + 4 <= |state.deck|
      modifies this
      ensures var s := old(state); var p := s.deckPointer;
        state == s.(deckPointer := p + 4, burned := s.burned + [s.deck[p]],
                    board := [s.deck[p + 1], s.deck[p + 2], s.deck[p + 3]], phase := Flop)
    {
      BurnCard();
      ghost var p := state.deckPointer;
      ghost var burnt := state;
      ghost var deck := state.deck;
      var flop := [];
      for k := 0 to 3
        invariant state == burnt.(deckPointer := p + k) && p + 3 <= |deck|
        invariant flop == deck[p..p + k]
      {
        var card := ScanNextCard();
        assert deck[p..p + k + 1] == deck[p..p + k] + [card];
        flop := flop + [card];
      }
      assert flop == [deck[p], deck[p + 1], deck[p + 2]];
      state := state.(board := flop, phase := Flop);
    }

    /** `deal_turn`: burn one, then one card onto the board. */
    method DealTurn()
      requires state.deckPointer + 2 <= |state.deck|
      modifies this
      ensures var s := old(state); var p := s.deckPointer;
        state == s.(deckPointer := p + 2, burned := s.burned + [s.deck[p]], board := s.board + [s.deck[p + 1]], phase := Turn)
    {
      BurnCard();
      var card := ScanNextCard();
      state := state.(board := state.board + [card], phase := Turn);
    }

    /** `deal_river`: burn one, then one card onto the board. */
    method DealRiver()
      requires state.deckPointer + 2 <= |state.deck|
      modifies this
      ensures var s := old(state); var p := s.deckPointer;
        state == s.(deckPointer := p + 2, burned := s.burned + [s.deck[p]], board := s.board + [s.deck[p + 1]], phase := River)
    {
      BurnCard();
      var card := ScanNextCard();
      state := state.(board := state.board + [card], phase := River);
    }

    /** The host's `advance` action. */
    method Advance(shuffled: seq<Card>, generated: string)
      requires Valid() && IsShuffle(shuffled)
      modifies this
      ensures state == Advanced(old(state), shuffled, generated)
      ensures Valid()
    {
      if state.phase == Waiting || state.phase == Showdown {
        StartNextHand(shuffled, generated);
      } else if state.phase == River {
        MoveToShowdown(shuffled, generated);
      } else {
        DealNextStreet(shuffled, generated);
      }
      AdvanceValid(old(state), shuffled, generated);
    }

    /** `advance` after SHOWDOWN: a new hand, the button moved back one
        seat unless it was forced. */
    method StartNextHand(shuffled: seq<Card>, generated: string)
      requires Valid() && IsShuffle(shuffled) && (state.phase == Waiting || state.phase == Showdown)
      modifies this
      ensures state == Advanced(old(state), shuffled, generated)
    {
      ShuffleFacts(shuffled);
      ghost var after := Advanced(state, shuffled, generated);
      var next := if state.manualButton then state.buttonIndex else (state.buttonIndex - 1) % |state.players|;
      Redeal(state.players, next, state.infoMode, false, shuffled, generated);
      assert state.(version := 1) == after;
      BumpVersion();
    }

    /** `advance` on PREFLOP, FLOP or TURN: burn one card and deal the next
        street. */
    method DealNextStreet(shuffled: seq<Card>, generated: string)
      requires Valid() && IsShuffle(shuffled) && (state.phase == Preflop || state.phase == Flop || state.phase == Turn)
      modifies this
      ensures state == Advanced(old(state), shuffled, generated)
    {
      BoardFacts(state);
      var phase := state.phase;
      ghost var after := Advanced(state, shuffled, generated);
      if phase == Preflop {
        DealFlop();
      } else if phase == Flop {
        DealTurn();
      } else {
        DealRiver();
      }
      assert state.(version := state.version + 1) == after;
      BumpVersion();
    }

    /** `advance` on RIVER: SHOWDOWN, drawing nothing. */
    method MoveToShowdown(shuffled: seq<Card>, generated: string)
      requires Valid() && IsShuffle(shuffled) && state.phase == River
      modifies this
      ensures state == Advanced(old(state), shuffled, generated)
    {
      state := state.(phase := Showdown);
      BumpVersion();
    }

    /** The host's misdeal action `force_button`. */
    method ForceButton(seat: int, shuffled: seq<Card>, generated: string)
      requires Valid() && IsShuffle(shuffled)
      modifies this
      ensures state == Forced(old(state), seat, shuffled, generated)
      ensures Valid()
    {
      ShuffleFacts(shuffled);
      var newButton := seat % |state.players|;
      Redeal(state.players, newButton, state.infoMode, true, shuffled, generated);
      BumpVersion();
      ForcedFacts(old(state), seat, shuffled, generated);
    }

    /** `resolve_showdown`: each player's score against the board, then an
        equal share of 100 for every winning name and the tie figure. */
    method ResolveShowdown(evaluate: (seq<Card>, seq<Card>) -> int)
      requires Valid() && forall p :: p in state.players ==> p in state.hands
      modifies this
      ensures Valid()
      ensures var s := old(state); var scores := SeatScores(s.players, s.hands, s.board, evaluate);
        state == s.(displayEquities := ShowdownShares(s.players, scores),
                    tieProbability := if |WinnerNames(s.players, scores)| > 1 then 100.0 else 0.0)
    {
      var equities, tie := ShowdownDisplay(state.players, state.hands, state.board, evaluate);
      state := state.(displayEquities := equities, tieProbability := tie);
    }

    /** `game_state_json`: a copy of the session record, with the hands and
        the hand descriptions emptied in DELAYED mode. */
    method GameStateJson() returns (view: State)
      ensures view == PublishAsWritten(state)
      ensures view.hostCode == state.hostCode && view.deck == state.deck && view.deckPointer == state.deckPointer
    {
      view := state;
      if state.infoMode == INFO_DELAYED {
        view := view.(hands := map[], displayHandRanks := map[]);
      }
    }
  }

  /** The table configuration form when no game exists: strip the names,
      refuse fewer than 2 or more than 10, otherwise start a session. */
  method HostConfig(names: seq<string>, button: int, mode: Option<string>, shuffled: seq<Card>,
                    generated: string) returns (game: Option<Game>)
    requires IsShuffle(shuffled)
    ensures game.None? <==> Configured(names, button, mode, shuffled, generated).None?
    ensures game.Some? ==>
      fresh(game.value) && game.value.Valid()
      && game.value.state == Configured(names, button, mode, shuffled, generated).value
  {
    var stripped := seq(|names|, i requires 0 <= i < |names| => Strip(names[i]));
    if !(2 <= |stripped| <= 10) {
      return None;
    }
    ShuffleFacts(shuffled);
    var buttonIndex := button % |stripped|;
    var infoMode := if mode.Some? then mode.value else INFO_DELAYED;
    var g := new Game.Configure(stripped, buttonIndex, infoMode, shuffled, generated);
    return Some(g);
  }
}
