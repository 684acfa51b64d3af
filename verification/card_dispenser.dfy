/** The automatic card feeder on the Raspberry Pi: a relay that pulses a
    feed motor, more often for the first cards of the stack (which are
    heavier to push) than for the last. The relay is modelled by its state
    and the trace of its switchings; the timings between them are not. */
module CardDispenser {

  /** Cards in a full stack, fed one after another. */
  const MAX_CARDS: nat := 52

  /** How many motor pulses card number `cardNum` (counted from 1) gets. */
  function PulsesForCard(cardNum: int): (p: nat)
    ensures 1 <= p <= 5
  {
    if cardNum <= 10 then 5
    else if cardNum <= 25 then 3
    else if cardNum <= 39 then 2
    else 1
  }

  /** A later card never gets more pulses than an earlier one. */
  lemma PulsesNonIncreasing(a: int, b: int)
    requires a <= b
    ensures PulsesForCard(b) <= PulsesForCard(a)
  {
  }

  /** The pulses of cards 1 to k. */
  function StackPulses(k: nat): nat
  {
    if k == 0 then 0 else StackPulses(k - 1) + PulsesForCard(k)
  }

  /** The pulse count of the first k cards in closed form, band by band. */
  lemma {:induction false} StackPulsesBands(k: nat)
    ensures k <= 10 ==> StackPulses(k) == 5 * k
    ensures 10 < k <= 25 ==> StackPulses(k) == 50 + 3 * (k - 10)
    ensures 25 < k <= 39 ==> StackPulses(k) == 95 + 2 * (k - 25)
    ensures 39 < k ==> StackPulses(k) == 123 + (k - 39)
  {
    if k > 0 {
      StackPulsesBands(k - 1);
    }
  }

  /** A full stack of 52 cards takes 136 pulses. */
  lemma FullStackPulses()
    ensures StackPulses(MAX_CARDS) == 136
  {
    StackPulsesBands(MAX_CARDS);
  }

  /** The relay switchings of k pulses: on, off, on, off, ... */
  function PulseTrain(k: nat): (t: seq<bool>)
    ensures |t| == 2 * k
  {
    if k == 0 then [] else PulseTrain(k - 1) + [true, false]
  }

  /** The switchings of feeding cards 1 to k. */
  function StackTrain(k: nat): seq<bool>
  {
    if k == 0 then [] else StackTrain(k - 1) + PulseTrain(PulsesForCard(k))
  }

  /** How many times a trace switches the relay on. */
  function OnCount(t: seq<bool>): nat
  {
    if t == [] then 0 else OnCount(t[..|t| - 1]) + (if t[|t| - 1] then 1 else 0)
  }

  lemma {:induction false} OnCountConcat(a: seq<bool>, b: seq<bool>)
    ensures OnCount(a + b) == OnCount(a) + OnCount(b)
    decreases |b|
  {
    if b == [] {
      assert a + b == a;
    } else {
      OnCountConcat(a, b[..|b| - 1]);
      assert (a + b)[..|a + b| - 1] == a + b[..|b| - 1];
      assert (a + b)[|a + b| - 1] == b[|b| - 1];
    }
  }

  /** A train of k pulses switches the relay on k times and ends with it off. */
  lemma {:induction false} PulseTrainFacts(k: nat)
    ensures OnCount(PulseTrain(k)) == k
    ensures k > 0 ==> !PulseTrain(k)[2 * k - 1]
  {
    if k > 0 {
      PulseTrainFacts(k - 1);
      OnCountConcat(PulseTrain(k - 1), [true, false]);
      assert OnCount([true, false]) == 1 by {
        assert [true, false][..1] == [true];
        assert [true][..0] == [];
      }
    }
  }

  /** Feeding cards 1 to k switches the relay on once per pulse. */
  lemma {:induction false} StackTrainPulses(k: nat)
    ensures OnCount(StackTrain(k)) == StackPulses(k)
  {
    if k > 0 {
      StackTrainPulses(k - 1);
      PulseTrainFacts(PulsesForCard(k));
      OnCountConcat(StackTrain(k - 1), PulseTrain(PulsesForCard(k)));
    }
  }

  /** The feed motor's relay. */
  class Relay {
    var isOn: bool
    /** Every switching so far: true for on, false for off. */
    var trace: seq<bool>

    /** Start-up switches the relay off once. */
    constructor ()
      ensures !isOn && trace == [false]
    {
      isOn := false;
      trace := [false];
    }

    method On()
      modifies this
      ensures isOn && trace == old(trace) + [true]
    {
      isOn := true;
      trace := trace + [true];
    }

    method Off()
      modifies this
      ensures !isOn && trace == old(trace) + [false]
    {
      isOn := false;
      trace := trace + [false];
    }

    /** `feed_card`: the card's number of on/off pulses. */
    method FeedCard(cardNum: int)
      modifies this
      ensures trace == old(trace) + PulseTrain(PulsesForCard(cardNum))
      ensures PulsesForCard(cardNum) > 0 ==> !isOn
    {
      var pulses := PulsesForCard(cardNum);
      for k := 0 to pulses
        invariant trace == old(trace) + PulseTrain(k)
        invariant k > 0 ==> !isOn
      {
        On();
        Off();
      }
    }

    /** `feed_full_stack`: cards 1 to 52 in order. */
    method FeedFullStack()
      modifies this
      ensures trace == old(trace) + StackTrain(MAX_CARDS)
      ensures OnCount(trace) == OnCount(old(trace)) + 136
      ensures !isOn
    {
      for card := 1 to MAX_CARDS + 1
        invariant trace == old(trace) + StackTrain(card - 1)
        invariant card > 1 ==> !isOn
      {
        FeedCard(card);
        assert old(trace) + StackTrain(card) == old(trace) + StackTrain(card - 1) + PulseTrain(PulsesForCard(card));
      }
      StackTrainPulses(MAX_CARDS);
      FullStackPulses();
      OnCountConcat(old(trace), StackTrain(MAX_CARDS));
    }
  }
}
