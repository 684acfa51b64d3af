# Poker Equity Server, modelled in Dafny

This project models the card-table logic of the Poker Equity Server. The
server is a small Flask application that runs one live poker table. A host
deals hole cards, the flop, the turn and the river. An audience page shows
each player's chance of winning, which comes from a Monte Carlo simulation.
Five source files make up the modelled core.

- `server/app.py` runs the table. Its session record is driven through
  WAITING, PREFLOP, FLOP, TURN, RIVER and SHOWDOWN by the host's `advance`
  and `force_button` actions. It also holds:
  - a deck read through a pointer, with burn cards;
  - seat labels relative to the button;
  - a trial budget per street;
  - the rule that decides which equity snapshot the audience may see;
  - the public `/game_state` view.
  Model: `ServerTable` (`server_table.dfy`). The session is the field
  `state` of the class `Game`, which the host's actions update in place.
- `server/equity.py` is the equity engine. It detects straights, runs trials
  in which co-best hands share one unit of credit, and names hands.
  Model: `ServerEquity`, plus the modules both engines share: `Trials` (one
  simulated trial), `RankFrequency` (the count-then-rank order), `HandNames`
  and `EquityReport`.
- `equity.py` is the older engine. A trial credits a hand only when that hand
  alone has the best score, and it names a straight by the lowest and highest
  ranks present. Model: `LegacyEquity`.
- `app.py` is the first version of the table. It has six fixed players,
  samples two cards each from a pool, deals the streets from the cards nobody
  holds, and rotates the seats on reset. Model: `LegacyTable`, whose class
  `Table` holds the `game_state` dictionary.
- `pi/card_dispenser.py` drives a card feeder's relay. Model: `CardDispenser`.

Cards are two-character strings, as in the source. Generic lemmas about
sequences live in `Seqs`, and `Option`/`Result` live in `Wrappers`.

Randomness enters the model as parameters:

- `random.shuffle` is a deck given in its shuffled order, which must be a
  permutation of the fresh deck (`IsShuffle`) or of the draw deck;
- `random.sample(pool, 2)` is a pair of numbers that picks two different
  positions;
- each trial's `Deck()` is a permutation of the 52 cards;
- the generated host code is a string.

The hand evaluator is a parameter as well. `evaluate(hole, board)` is an
integer score where lower is better. `classify(hole, board)` is the
evaluator's class name.

The server's Python `%` (floor) and Dafny's `%` (Euclidean) agree for the
positive table sizes it is used with.

Three behaviours of the code are worth knowing when reading the model:

- The version counter is not monotone across hands. Every new hand rebuilds
  the record with `"version": 0` and bumps it to 1 (server/app.py:195,
  :320-331). See `ServerTable.AdvanceFacts`.
- `/game_state` publishes the whole session record. See "Findings".
- Blank player names are stripped but accepted (`ServerTable.StripBlank`).

The class `Game` models every handler as written. Where the code falls short
of its own stated intent, the corrected behaviour is defined beside it as
functions and proved (see "Findings").

## Model

| member | source | states |
|---|---|---|
| CardDispenser.PulsesForCard | pi/card_dispenser.py:22-31 | every card gets between 1 and 5 motor pulses |
| CardDispenser.PulsesNonIncreasing | pi/card_dispenser.py:22-31 | a later card never gets more pulses than an earlier one |
| CardDispenser.StackPulsesBands | pi/card_dispenser.py:22-31 | the pulses of cards 1..k, band by band: 5k up to 10, 50+3(k-10) up to 25, 95+2(k-25) up to 39, then 123+(k-39) |
| CardDispenser.FullStackPulses | pi/card_dispenser.py:45-48 | a full stack of 52 cards takes 136 pulses |
| CardDispenser.PulseTrainFacts | pi/card_dispenser.py:37-41 | k on/off pulses switch the relay on exactly k times and leave it off |
| CardDispenser.StackTrainPulses | pi/card_dispenser.py:45-48 | feeding cards 1..k switches the relay on once per pulse the cards get |
| CardDispenser.Relay.constructor | pi/card_dispenser.py:17-19 | start-up switches the relay off once, so the trace starts with that one off |
| CardDispenser.Relay.FeedCard | pi/card_dispenser.py:33-43 | `feed_card` appends exactly the card's pulse train to the relay trace and leaves the relay off |
| CardDispenser.Relay.FeedFullStack | pi/card_dispenser.py:45-49 | feeding cards 1..52 appends their trains in order, 136 switch-ons in all, and leaves the relay off |
| Cards.FreshDeckComplete | server/app.py:62-66 | the fresh deck lists every valid card exactly once |
| Cards.ShuffleFacts | server/app.py:119-122 | a shuffled deck has 52 distinct valid cards |
| Cards.RankOf | server/equity.py:7-11 | a card's rank number is below 13 and `RANK_STR` names it by the card's rank character |
| Trials.RemainingLength | server/equity.py:53-63 | with at most 47 hole cards, removing the known cards leaves enough cards to complete the board |
| Trials.TrialBoardFacts | server/equity.py:65-69 | the simulated board starts with the real board and has exactly five cards (a longer board is kept as it is); every added card is a distinct valid card that is neither a hole card nor on the board |
| Trials.RemoveStep | server/equity.py:58-59 | a guarded `deck.cards.remove(c)` on the filtered deck filters out c as well |
| Trials.RemoveAll | server/equity.py:56-63 | removing a list of known cards leaves the deck without all of them, in deck order |
| Trials.CompleteBoard | server/equity.py:53-69 | one trial's deck handling and board completion yield `TrialBoard`, whose properties `TrialBoardFacts` states |
| Trials.PlayTrial | server/equity.py:52-71 | a trial's scores are the evaluator's scores of every hand on its simulated board |
| Trials.IndicesOf | server/equity.py:73 | the positions listed are exactly those holding the given score, in increasing order |
| Trials.Winners | server/equity.py:71-73 | the winners are non-empty, without repeats, and exactly the hands with the minimum score |
| EquityReport.PercentagesFacts | server/equity.py:83 | percentages of totals that are each at most the trial count lie in [0,100] and add up to the percentage of the total |
| EquityReport.PercentOfParts | equity.py:55-56 | two parts of the trial count, as percentages, add up to 100 |
| EquityReport.HandRanksFacts | server/equity.py:86-89 | the name comprehension raises exactly when some description raises; otherwise its keys are the zipped names, and each name maps to the description of the hand paired with its last occurrence |
| RankFrequency.FreqOrder | server/equity.py:115-121 | the sorted frequency keys are exactly the ranks present, strictly ordered by count descending and then rank descending |
| RankFrequency.FreqOrderLeaders | server/equity.py:121 | the first key beats every other rank present, and the second beats every rank but the first |
| RankFrequency.FreqOrderNamesLeaders | equity.py:89-95 | the most frequent rank (the highest among ties) is first and the runner-up second; a single distinct rank leaves one key |
| HandNames.PreflopName | server/equity.py:105-109 | with no board: raises on fewer than two hole cards; a pair is "Pair of Xs" by rank character; otherwise "High Card" names the highest hole card |
| ServerEquity.HighestWindow | server/equity.py:30-36 | the scan returns the highest h from the start down to 4 whose five-rank window is present, or nothing when no window fits |
| ServerEquity.FindFiveCardStraight | server/equity.py:17-36 | the wheel is reported whenever A-2-3-4-5 is present; otherwise the highest five-rank window (low = high-4); None exactly when no window fits |
| ServerEquity.WheelShadowsHigherStraight | server/equity.py:26-34 | A-2-3-4-5-6 holds the six-high run, yet the straight is named "A to 5" because the wheel is checked first |
| ServerEquity.CreditFacts | server/equity.py:75-78 | a trial's credits sum to one; each lies in [0,1] and is positive exactly for the co-best hands |
| ServerEquity.TotalsFacts | server/equity.py:71-78 | the `wins` totals sum to the number of trials, and each lies between 0 and the number of trials |
| ServerEquity.TieCountBound | server/equity.py:80-81 | there are never more tied trials than trials |
| ServerEquity.AddShares | server/equity.py:76-78 | `wins[w] += share` over distinct winners adds the share at exactly the winners' positions |
| ServerEquity.TrialStep | server/equity.py:52-81 | one more trial adds its credit to the totals, and adds one to the tie count exactly when it has two or more winners |
| ServerEquity.ReportFacts | server/equity.py:83-84 | the equities add up to 100, each lies in [0,100], and so does the tie percentage |
| ServerEquity.CalculateEquityMulti | server/equity.py:42-91 | the trial loop computes the credit totals and the tie count; equities sum to 100, each and the tie figure lie in [0,100]; the names are the comprehension over zipped names and hands |
| ServerEquity.PreflopNames | server/equity.py:105-109 | with no board the name depends on the hole cards only: "Pair of Xs" or the highest hole card, and raises on fewer than two cards |
| ServerEquity.PairedNames | server/equity.py:115-152 | post-flop names: Pair, Trips, Quads, Two Pair and Full House use the leading ranks of the frequency order; High Card and Flush use the highest rank; two-rank names over one distinct rank raise |
| ServerEquity.WheelNamedFirst | server/equity.py:138-157 | with A-2-3-4-5 present, both straight classes are named "A to 5" |
| ServerEquity.HighestRunNamed | server/equity.py:138-163 | without the wheel, the highest five-rank run names the straight; the ace-high straight flush is "Royal Flush" |
| ServerEquity.NoRunFails | server/equity.py:139-142 | a straight class with no five-rank run raises, as unpacking None does |
| ServerEquity.UnknownClassName | server/equity.py:165 | a class name outside the nine known ones is returned as it is |
| LegacyEquity.PreflopNames | equity.py:75-82 | with no board the older describer gives the server's preflop names |
| LegacyEquity.StraightNames | equity.py:108-120 | both straight classes are named from the lowest to the highest rank present, whether or not those ranks form the run |
| LegacyEquity.RankedNamesAgree | equity.py:98-117 | every post-flop name other than the straight ones is the server's |
| LegacyEquity.StraightNamesDiffer | equity.py:108-111 | 2-3-4-5-6 with a jack is "2 to 6" on the server and "2 to J" in the older revision |
| LegacyEquity.SoleWinnerFacts | equity.py:48-53 | one winner is listed exactly when some hand alone has the best score, and then it is that hand |
| LegacyEquity.OnlySoleBest | equity.py:48-51 | a hand that alone has the best score is the only winner |
| LegacyEquity.TallyAt | equity.py:50-51 | a trial won alone by hand k adds one to k's count and to no other |
| LegacyEquity.TallySplit | equity.py:52-53 | a trial with several co-best hands credits no one |
| LegacyEquity.TallySum | equity.py:50-53 | a trial adds one to the total win count exactly when it has a sole winner |
| LegacyEquity.WinsFacts | equity.py:46-56 | sum(wins) + ties equals the number of trials; each hand's count is the number of trials it won alone, between 0 and the trial count |
| LegacyEquity.SplitTrialAccounting | equity.py:50-53 | on a split trial the server shares the credit among the co-best hands and the older revision credits no one; both count a tie |
| LegacyEquity.TrialStep | equity.py:26-53 | one more trial adds its sole win, or else one tie |
| LegacyEquity.ReportFacts | equity.py:55-56 | the equities and the tie figure add up to 100, each in [0,100] |
| LegacyEquity.Record | equity.py:50-53 | the branch on `len(winners) == 1` performs one trial's tally and tie count |
| LegacyEquity.Simulate | equity.py:26-53 | the trial loop computes the win counts and the tie count of all trials |
| LegacyEquity.NameHands | equity.py:59-61 | the naming loop gives the name comprehension's result and stops at the first description that raises |
| LegacyEquity.HandRanksAbort | equity.py:59-61 | once a description raises, every later step raises the same |
| LegacyEquity.CalculateEquityMulti | equity.py:6-63 | the older engine's results: win and tie percentages summing to 100, each in [0,100], and the names |
| ServerTable.PhaseBackInvertsAdvance | server/app.py:19-25 | `PHASE_BACK` maps each street PREFLOP..RIVER's successor back to it, and PREFLOP and WAITING look back to nothing |
| ServerTable.ResolveDisplayInfo | server/app.py:222-230 | any snapshot shown is one the cache holds |
| ServerTable.DisclosureFacts | server/app.py:222-230 | FULL shows the current street's entry; DELAYED never shows the current street, shows nothing before the flop and shows the street before; other modes show nothing |
| ServerTable.Labels | server/app.py:73-83 | 2 to 10 players get one label each, button first; other counts get none |
| ServerTable.GetPositions | server/app.py:68-88 | outside 2..10 players the map is empty; otherwise every player gets a label, seat (b+i) mod n gets label i, and the button seat gets "BTN" |
| ServerTable.LabelsBySeat | server/app.py:85-87 | labels given seat by seat from the button give player m the label (m-b) mod n |
| ServerTable.IterationsFor | server/app.py:90-103 | the trial budget is always in [200, 2000] |
| ServerTable.IterationsShrinkByStreet | server/app.py:95-103 | a later street never gets a larger budget than an earlier one, and a scaled count inside [200, 2000] is the budget unchanged |
| ServerTable.StripCuts | server/app.py:262 | `strip` cuts only whitespace off either end, and what it keeps starts and ends with a non-whitespace character |
| ServerTable.StripEnds | server/app.py:262 | a stripped name, unless empty, has no whitespace at either end |
| ServerTable.StripIdempotent | server/app.py:262 | stripping twice is stripping once |
| ServerTable.StripBlank | server/app.py:262-265 | an all-whitespace name strips to "" and still counts toward the 2..10 players |
| ServerTable.DealtBySlots | server/app.py:133-143 | dealing card by card gives each player the cards at the deck positions of their deals |
| ServerTable.DealStep | server/app.py:139-141 | deal t appends the card under the pointer to the hand of the player in seat start+(t mod n) |
| ServerTable.DealtHands | server/app.py:133-143 | the card-by-card hands dictionary equals the one read by deck position |
| ServerTable.HandSlotsOfSeat | server/app.py:136-141 | with distinct names, the player in seat start+i gets positions base+i and base+n+i and no others |
| ServerTable.HoleHandsBySeat | server/app.py:133-143 | with distinct names, the player in seat start+i holds exactly the cards at deck positions i and n+i |
| ServerTable.SlotsFacts | server/app.py:119-159 | burns and board cards come from distinct positions after the hole cards; the pointer never passes 2n+8; each street has 0/3/4/5 board cards and 0/1/2/3 burns |
| ServerTable.NewHandValid | server/app.py:270-273 | a new hand on a shuffled deck is a valid session |
| ServerTable.ConfiguredFacts | server/app.py:261-275 | the configuration is refused exactly outside 2..10 names; otherwise it starts a valid PREFLOP session at version 1 with the stripped names, button mod n, DELAYED by default, no forced button, an empty board and the generated code |
| ServerTable.AdvanceValid | server/app.py:311-332 | `advance` keeps the session valid |
| ServerTable.StreetValid | server/app.py:326-328 | burning a card and dealing the next street keeps the session valid |
| ServerTable.AdvanceFacts | server/app.py:311-332 | from SHOWDOWN a new hand starts: the button stays if it was forced and otherwise moves to (b-1) mod n; version 1, an empty board, the new shuffle, no forced button, and the newly generated host code in place of the old one. From PREFLOP..TURN one card is burned, the board grows and the version goes up by one. From RIVER nothing is drawn |
| ServerTable.ForcedFacts | server/app.py:301-309 | the misdeal action starts a valid PREFLOP hand with the button at seat mod n, marked as forced, an empty board, version 1, fresh hole cards and the newly generated host code |
| ServerTable.NewHandReplacesCode | server/app.py:301-322 | as written, `force_button` and the `advance` that ends a hand replace the host code whenever a different one is generated |
| ServerTable.HostCodeKept | server/app.py:187-196 | with the session's code passed to `start_new_game`, `advance` and `force_button` keep a non-empty host code and otherwise act as written |
| ServerTable.HandLifecycle | server/app.py:311-332 | from PREFLOP, four advances give boards of 3, 4, 5 and 5 cards and reach SHOWDOWN; the fifth starts a new hand at version 1 |
| ServerTable.MisdealButtonStays | server/app.py:301-322 | after a misdeal, the advance that ends the hand keeps the forced button |
| ServerTable.BoardFacts | server/app.py:119-159 | the pointer never passes 28 of the 52 cards; burned and board cards are distinct valid cards, with the counts of the phase |
| ServerTable.HoleKeys | server/app.py:135-143 | every player has a hand, and only players do |
| ServerTable.HoleCardsValid | server/app.py:133-143 | each hand's cards are distinct valid cards |
| ServerTable.HolesApartFromBoard | server/app.py:130-159 | no hole card is burned or on the board |
| ServerTable.HolesDisjoint | server/app.py:138-141 | no card sits in two players' hands |
| ServerTable.HoleTwoCards | server/app.py:138-141 | with distinct names every hand has exactly two cards |
| ServerTable.ShowdownWinners | server/app.py:169-175 | the showdown winners are the names with the lowest score, and there is at least one |
| ServerTable.WinnerCount | server/app.py:174-176 | with distinct names there are as many winning names as co-best seats, seat by seat |
| ServerTable.ShowdownSplit | server/app.py:174-181 | every winner gets 100 divided by the number of winners and every other seat 0, so the shares sum to 100; there is more than one winning name exactly when two or more seats share the best score |
| ServerTable.ScoreHands | server/app.py:169-172 | the scores dictionary holds every player's evaluator score, and nothing else |
| ServerTable.ScoreMapWinners | server/app.py:174-175 | the names whose dictionary score is the minimum are the names at the co-best seats |
| ServerTable.ShowdownDisplay | server/app.py:165-181 | `resolve_showdown`'s figures: equal shares of 100 for the winners and the tie figure |
| ServerTable.PublishAsWritten | server/app.py:341-353 | the view as written: in DELAYED mode only the hands and the hand names are emptied; in any other mode it is the whole record |
| ServerTable.AsWrittenViewLeaks | server/app.py:346-353 | the as-written DELAYED view still carries the host code and the shuffled deck, from which the hidden hands are recomputed exactly |
| ServerTable.AsWrittenViewShowsNextStreet | server/app.py:346-353 | in every mode, the as-written view's deck and pointer give the cards the next `advance` puts on the board |
| ServerTable.Publish | server/app.py:346-353 | the corrected view never shows the host code or the deck, and in DELAYED mode shows neither the hands nor the hand names; put back the code and the deck and it is the as-written view |
| ServerTable.PublishHidesCards | server/app.py:348-351 | in DELAYED mode, sessions differing only in hole cards, hand names, deck and host code publish the same view |
| ServerTable.PublishHidesUpcoming | server/app.py:346-353 | in every mode, sessions differing only in the undrawn cards publish the same corrected view |
| ServerTable.PublishFullMode | server/app.py:346-353 | outside DELAYED mode the corrected view differs from the session only in the host code and the deck |
| ServerTable.Game.Configure | server/app.py:270-273 | a configured table is the new hand at version 1, and valid |
| ServerTable.Game.StartNewGame | server/app.py:187-216 | `game_state.update(start_new_game(...))` replaces every field with the fresh record; a missing code is generated |
| ServerTable.Game.Redeal | server/app.py:320-324 | record, shuffle and hole deal: the new hand before its version bump |
| ServerTable.Game.BumpVersion | server/app.py:111-113 | the version goes up by one and nothing else changes |
| ServerTable.Game.ScanFullDeckSim | server/app.py:119-123 | the shuffled deck is installed, the pointer reset and the burns cleared |
| ServerTable.Game.ScanNextCard | server/app.py:125-128 | returns the card under the pointer and advances the pointer by one |
| ServerTable.Game.BurnCard | server/app.py:130-131 | the card under the pointer is burned and the pointer moves on |
| ServerTable.Game.DealTo | server/app.py:140-141 | one deal appends the card under the pointer to the right player's hand |
| ServerTable.Game.DealRound | server/app.py:139-141 | one round deals n cards seat by seat and moves the pointer by n |
| ServerTable.Game.DealHoleCards | server/app.py:133-144 | the hands become the two-round deal starting left of the button, the pointer moves by 2n, and the phase becomes PREFLOP |
| ServerTable.Game.DealFlop | server/app.py:146-149 | burns one, the next three cards become the board, pointer +4, phase FLOP |
| ServerTable.Game.DealTurn | server/app.py:151-154 | burns one, one card is appended to the board, pointer +2, phase TURN |
| ServerTable.Game.DealRiver | server/app.py:156-159 | burns one, one card is appended to the board, pointer +2, phase RIVER |
| ServerTable.Game.Advance | server/app.py:311-332 | the `advance` handler performs `Advanced` (see AdvanceFacts) and keeps the session valid |
| ServerTable.Game.ForceButton | server/app.py:301-309 | the `force_button` handler performs `Forced` (see ForcedFacts) and keeps the session valid |
| ServerTable.Game.ResolveShowdown | server/app.py:165-181 | stores the showdown shares and the tie figure, changes nothing else, and keeps the session valid |
| ServerTable.Game.GameStateJson | server/app.py:341-353 | returns the record's copy with the hands and hand names emptied in DELAYED mode only, so host code, deck and pointer are published as they are |
| ServerTable.HostConfig | server/app.py:261-275 | the configuration form: no game outside 2..10 names, otherwise a fresh valid game in the configured state |
| LegacyTable.ZipMapAt | app.py:20 | `dict(zip(keys, values))` with distinct keys gives key i value i, with exactly those keys |
| LegacyTable.RotateLeft | app.py:33 | moving the first player to the end keeps the length and the players |
| LegacyTable.TurnStep | app.py:33 | one rotation turns the seating one step further; turning as many times as there are players gives the seating back |
| LegacyTable.SeatingPlayers | app.py:31-34 | every seating holds the six players once each |
| LegacyTable.RotateStep | app.py:31-34 | one reset turns the seating from r to r+1 mod 6 |
| LegacyTable.RotateLabels | app.py:31-34 | after a rotation every player but the first moves one label earlier and the first becomes BB |
| LegacyTable.Sample | app.py:15 | a sample is two cards of the pool, different when the pool has no repeats |
| LegacyTable.SampleEveryPair | app.py:15 | every ordered pair of different pool positions is the outcome of some pick |
| LegacyTable.DropTwo | app.py:16-17 | removing a sampled pair leaves two fewer distinct valid cards |
| LegacyTable.Pool | app.py:12-17 | after k samples the pool has 52-2k distinct valid cards |
| LegacyTable.HolesFacts | app.py:14-17 | every sample is two different cards; no card is sampled twice and none stays in the pool |
| LegacyTable.HolesStep | app.py:14-17 | one more sample keeps the samples pairwise apart and apart from the pool |
| LegacyTable.DealFacts | app.py:14-17 | each player gets two different valid cards, no card is dealt twice, and none stays in the pool |
| LegacyTable.DealPairs | app.py:14-17 | every dealt hand is two different valid cards that left the pool |
| LegacyTable.DealApart | app.py:14-17 | no card is dealt to two players |
| LegacyTable.DealStep | app.py:14-17 | one turn of the loop gives the next player the sample and removes both of its cards from the pool |
| LegacyTable.RemovePair | app.py:16-17 | the two `remove` calls leave the pool without exactly the sampled cards |
| LegacyTable.DealHands | app.py:12-17 | the dealing loop builds `Dealt`, whose properties `DealFacts` states |
| LegacyTable.HandList | app.py:69 | the hands in seating order, one per player |
| LegacyTable.NewGameGood | app.py:11-26 | a new game seats six players by `positions_order` with twelve distinct hole cards and an empty board |
| LegacyTable.NewGameValid | app.py:28 | the start-up game is good and in the first seating |
| LegacyTable.HandListFacts | app.py:68-73 | the equity calculation receives six valid pairs, twelve hole cards |
| LegacyTable.HeldCards | app.py:43 | a card is in the flattened hand list exactly when some player holds it |
| LegacyTable.DrawDeckFacts | app.py:42-44 | the draw deck is exactly the valid cards nobody holds and the board does not show, without repeats, at least 40-|board| of them |
| LegacyTable.Popped | app.py:48 | popping k cards takes the last k cards, last first |
| LegacyTable.ShuffledFacts | app.py:42-45 | the shuffled draw deck has at least 35 distinct cards, all from the draw deck |
| LegacyTable.PopGood | app.py:47-52 | cards popped onto the board repeat no card, on the board or in a hand |
| LegacyTable.StreetCardsFresh | app.py:44-52 | each dealt street card is valid, not on the board and in no hand |
| LegacyTable.ResetGame | app.py:53-65 | the reset game is still good |
| LegacyTable.Acted | app.py:47-65 | every host action (flop, turn, river, reset or anything else) keeps a good game good: six seated players with two cards each, and no card in two places |
| LegacyTable.ActedStreets | app.py:47-52 | a street request changes only the board: flop adds 3 cards only to an empty board, turn 1 only at 3, river 1 only at 4; otherwise nothing |
| LegacyTable.ActedReset | app.py:53-65 | reset rotates the seats, recomputes positions, deals two fresh cards each with none twice, empties the board, zeroes the six equities and the tie, and maps every player to the blank name "" |
| LegacyTable.RefreshedFacts | app.py:67-76 | after the equity step the game stays good with the same players; either it is unchanged (a description raised) or the six equities plus the tie make 100, each in [0,100] |
| LegacyTable.Table.constructor | app.py:28 | start-up builds `new_game()` in the first seating |
| LegacyTable.Table.RotatePositions | app.py:31-34 | `rotate_positions` rotates the players and recomputes the positions, nothing else |
| LegacyTable.Table.Act | app.py:40-65 | the POST branches perform `Acted` and keep the table valid |
| LegacyTable.Table.Reset | app.py:53-65 | the reset branch performs `ResetGame` and turns the seating |
| LegacyTable.Table.Refresh | app.py:67-76 | the equity step performs `Refreshed` and keeps the table valid |
| LegacyTable.Table.HostView | app.py:38-79 | a request is the action (on POST) followed by the equity step |
| LegacyTable.DealStreet | app.py:47-52 | the street branches pop from the shuffled deck exactly as `Acted` says |
| LegacyTable.Recompute | app.py:67-76 | runs the older engine over the hands in seating order and stores its results unless a description raised |
| LegacyTable.PopCards | app.py:48-52 | `deck.pop()` k times returns the last k cards, last first, and the rest of the deck |

## Left out

- Flask routing, templates, redirects and form parsing are left out. Only the state changes the handlers make are modelled. In the older app.py this covers `audience_view` (app.py:81-84), the template renders of `host_view` (app.py:77-79), and `game_state_json` (app.py:86-88), which returns the dictionary unchanged.
- The server's host-code lock screens (server/app.py:243-256 and :289-294) are left out. So is `generate_host_code`, whose random letters are a parameter. The older app.py has no host code.
- The sqlite setup (server/app.py:41-56) is left out, as are pi/train_cards.py and pi/rfid_listener.py. They are storage and reader I/O and are not part of this model.
- The card feeder's GPIO button, the `time.sleep` timings, the prints and the endless `while True` loop are left out. The relay is a state plus a trace of switchings.
- The treys library is replaced by parameters. `Evaluator.evaluate` is a score function, and `class_to_string` is the class name given per hand. `Card.new` becomes the check that a string is a valid card; when that check fails, the result is the `UnknownCard` error. `Deck()` is a shuffled deck whose front `draw` takes.
- Randomness (`random.shuffle`, `random.sample`, the trials' decks) is a parameter constrained to be a permutation or a valid pick. Convergence of the Monte Carlo estimate is not stated.
- Floating point is modelled with exact reals: the shares, percentages and the multipliers of `iterations_for`. `n ** 0.9` is the parameter `power`.
- ServerTable.IterationsFor: `power` is any positive value. The bound [200, 2000] holds for every value, but the exact counts of the float computation are not stated.
- The concurrency of Flask's global state is not modelled; each handler runs as one atomic update.
- `game_state_json` returning `{}` when no game exists is left out: `Game` exists only once configured (`HostConfig` returns `None` otherwise). The `game_state is None` guard of `bump_version` is left out for the same reason.
- The reconfiguration screen for an existing game (server/app.py:243-256) only renders a template and is left out.
- `equity_by_phase` is never written by the code; the model carries it as an empty field. `ResolveDisplayInfo` takes any cache, so disclosure is stated for every possible cache. `last_completed_phase` is carried unchanged.
- `resolve_showdown` is never called by the server; it is modelled as `Game.ResolveShowdown` anyway.
- `STREETS` (server/app.py:27) is unused by the code and left out.
- ServerTable.HoleTwoCards: states two cards per hand only for distinct player names. With a repeated name, the dictionary merges both seats' cards into one hand; `HandSlots` computes that, but no count is stated.
- ServerTable.GetPositions: with repeated names, only the key set is stated. A later seat's label overwrites an earlier one, and the labels are not stated seat by seat.
- ServerTable.ShowdownSplit: requires distinct names. With a repeated name the `scores` dictionary keeps the last seat's score only, and the split is not stated.
- ServerEquity.CalculateEquityMulti: requires at least one hand and one trial, and valid card strings. With no hands the source raises (`min` of an empty list); with no trials it divides by zero. No caller in the model reaches those cases.
- LegacyEquity.CalculateEquityMulti: requires at least one hand and one trial, and valid card strings, for the same reasons as the server's engine.
- Trials.TrialBoardFacts: requires at most 47 hole cards when the board is short (`EnoughCards`). With more, `Deck.draw` would run out, and that error path is not modelled.
- The legacy table's `used` list is read as a set of cards; membership is all the code asks of it.
- LegacyTable.Refreshed: a description that raises makes the whole request fail. The model keeps the state as the action left it, with the old equities, tie and names.
- The legacy `tie` and `equities` start as the integer 0; the model uses the real 0.0.
- ServerTable.Strip: `str.isspace` is modelled by its fixed list of whitespace code points. No Unicode database is consulted.

## Findings

| source | as written | input that shows it | evidently intended | confidence | as-written member | corrected member |
|---|---|---|---|---|---|---|
| server/app.py:341-353 | `/game_state` publishes a copy of the whole session record, including `host_code`, in every mode | any session: the public view's host code equals the session's, and that code unlocks the host page (server/app.py:290-294) | the host code is never part of the public view | high; not executed | ServerTable.PublishAsWritten | ServerTable.Publish |
| server/app.py:346-353 | in DELAYED mode only `hands` and `display_hand_ranks` are emptied; `deck`, `players` and `button_index` stay | any valid DELAYED session: the published deck, players and button recompute every hidden hand exactly | DELAYED mode hides the deck too, so the hole cards cannot be derived | high; not executed | ServerTable.AsWrittenViewLeaks | ServerTable.PublishHidesCards |
| server/app.py:346-353 | in every mode the view keeps `deck` and `deck_pointer`; FULL mode promises live equities and hole cards (server/app.py:16), not the undealt cards | any valid PREFLOP session: the published deck from position pointer+1 holds the flop the next `advance` deals | cards not yet dealt are never published | high; not executed | ServerTable.AsWrittenViewShowsNextStreet | ServerTable.PublishHidesUpcoming |
| server/app.py:301-322 | `force_button` and `advance` call `start_new_game` without `host_code`, so every new hand generates a new code (server/app.py:196), against the docstring at server/app.py:188-191 | any session at SHOWDOWN whose generated code differs from its own: after `advance` the old code no longer opens the host page | the host code persists for the whole session | high; not executed | ServerTable.NewHandReplacesCode | ServerTable.HostCodeKept |
