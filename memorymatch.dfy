/**
 * The memory-match game of `MemoryMatch` (src/components/MemoryMatch.tsx):
 * twelve cards, two of each of six fruits, are turned over two at a time; a
 * pair with equal values stays matched, any other pair is turned back.
 *
 * The source mutates the card objects through a shallow copy of the list; here
 * the cards are an array whose elements `HandleFlip` and `CheckMatch` update in
 * place. The shuffle is an argument of `InitializeGame`, and the two timers
 * (the 800 ms check and the 2 s reset) are calls the environment makes.
 */
module MemoryMatch {
  import opened Common

  /** `cardValues`: apple, banana, grapes, orange, watermelon, cherries. */
  const CardValues: seq<string> :=
    ["\U{1F34E}", "\U{1F34C}", "\U{1F347}", "\U{1F34A}", "\U{1F349}", "\U{1F352}"]

  /** `[...cardValues, ...cardValues]`: the deck before shuffling. */
  function Deck(): seq<string>
  {
    CardValues + CardValues
  }

  /** Every fruit is in the deck exactly twice, and nothing else is. */
  lemma DeckHasPairs()
    ensures |Deck()| == 12
    ensures forall v :: v in CardValues ==> multiset(Deck())[v] == 2
    ensures forall v :: v !in CardValues ==> multiset(Deck())[v] == 0
  {
    var d := Deck();
    assert multiset(d) == multiset(CardValues) + multiset(CardValues);
    assert multiset(CardValues) == multiset{CardValues[0], CardValues[1], CardValues[2],
                                            CardValues[3], CardValues[4], CardValues[5]};
  }

  datatype Card = Card(id: nat, value: string, isFlipped: bool, isMatched: bool)

  /** A card showing its face that is not yet matched. */
  predicate FaceUpUnmatched(c: Card)
  {
    c.isFlipped && !c.isMatched
  }

  predicate AllMatchedIn(cs: seq<Card>)
  {
    forall i :: 0 <= i < |cs| ==> cs[i].isMatched
  }

  /**
   * The protocol's invariant over the cards: ids and values are those dealt;
   * the face-up unmatched cards are exactly the at most two recorded in
   * `flipped`; the board is locked exactly while a pair waits to be checked; a
   * matched card stays face up; and the congratulations show exactly when all
   * cards are matched.
   */
  ghost predicate Consistent(cs: seq<Card>, dealt: seq<string>, flipped: seq<nat>, disabled: bool, congrats: bool)
  {
    && |cs| == 12 && |dealt| == 12
    && multiset(dealt) == multiset(Deck())
    && (forall i :: 0 <= i < 12 ==> cs[i].id == i && cs[i].value == dealt[i])
    && |flipped| <= 2
    && (forall k :: 0 <= k < |flipped| ==> flipped[k] < 12)
    && (|flipped| == 2 ==> flipped[0] != flipped[1])
    && (forall i :: 0 <= i < 12 ==> (FaceUpUnmatched(cs[i]) <==> i in flipped))
    && (forall i :: 0 <= i < 12 && cs[i].isMatched ==> cs[i].isFlipped)
    && (disabled <==> |flipped| == 2)
    && (congrats <==> AllMatchedIn(cs))
  }

  /** The face-up unmatched cards. */
  ghost function FaceUp(cs: seq<Card>): set<nat>
  {
    set i | 0 <= i < |cs| && FaceUpUnmatched(cs[i])
  }

  /** At most two cards are face up and unmatched at any time. */
  lemma AtMostTwoFaceUp(cs: seq<Card>, dealt: seq<string>, flipped: seq<nat>, disabled: bool, congrats: bool)
    requires Consistent(cs, dealt, flipped, disabled, congrats)
    ensures |FaceUp(cs)| <= 2
  {
    var s := set k | 0 <= k < |flipped| :: flipped[k];
    assert FaceUp(cs) <= s;
    if |flipped| == 0 {
      assert s == {};
    } else if |flipped| == 1 {
      assert s == {flipped[0]};
    } else {
      assert s == {flipped[0], flipped[1]};
    }
    SubsetSize(FaceUp(cs), s);
  }

  class Game {
    var cards: array<Card>
    var flipped: seq<nat>
    var disabled: bool
    var congrats: bool
    /** The shuffled deck the game was dealt from. */
    ghost var dealt: seq<string>

    ghost predicate Valid()
      reads this, cards
    {
      Consistent(cards[..], dealt, flipped, disabled, congrats)
    }

    /** The initial state, then the effect on mount: `initializeGame` with the shuffled `deck`. */
    constructor (deck: seq<string>)
      requires |deck| == 12 && multiset(deck) == multiset(Deck())
      ensures Valid() && fresh(cards)
      ensures forall i :: 0 <= i < 12 ==> cards[i] == Card(i, deck[i], false, false)
      ensures flipped == [] && !disabled && !congrats
    {
      cards := new Card[0];
      flipped := [];
      disabled := false;
      congrats := false;
      dealt := [];
      new;
      InitializeGame(deck);
    }

    /**
     * `initializeGame`: a fresh deal of the shuffled `deck`, every card face down
     * and unmatched, nothing flipped, nothing locked, no congratulations.
     */
    method InitializeGame(deck: seq<string>)
      requires |deck| == 12 && multiset(deck) == multiset(Deck())
      modifies this
      ensures Valid() && fresh(cards)
      ensures forall i :: 0 <= i < 12 ==> cards[i] == Card(i, deck[i], false, false)
      ensures flipped == [] && !disabled && !congrats
    {
      cards := new Card[12](i requires 0 <= i < 12 => Card(i, deck[i], false, false));
      flipped := [];
      congrats := false;
      disabled := false;
      dealt := deck;
      assert !cards[..][0].isMatched;
    }

    /**
     * `handleFlip(index)`. Returns the pair whose check the 800 ms timer will
     * run, when this was the second card of a pair.
     */
    method HandleFlip(index: nat) returns (check: Option<(nat, nat)>)
      requires Valid() && index < cards.Length
      modifies this, cards
      ensures Valid() && cards == old(cards) && dealt == old(dealt) && congrats == old(congrats)
      ensures forall i :: 0 <= i < 12 && old(cards[i]).isMatched ==> cards[i].isMatched
      ensures old(disabled) || old(cards[index]).isFlipped || old(cards[index]).isMatched ==>
        cards[..] == old(cards[..]) && flipped == old(flipped) && disabled == old(disabled) && check.None?
      ensures !old(disabled) && !old(cards[index]).isFlipped && !old(cards[index]).isMatched ==>
        && cards[..] == old(cards[..])[index := old(cards[index]).(isFlipped := true)]
        && (old(|flipped|) == 0 ==> flipped == [index] && !disabled && check.None?)
        && (old(|flipped|) == 1 ==> flipped == [old(flipped[0]), index] && disabled
                                    && check == Some((old(flipped[0]), index)))
    {
      check := None;
      if disabled {
        return;
      }
      if cards[index].isFlipped || cards[index].isMatched {
        return;
      }
      ghost var before := cards[..];
      FlippedConsistent(before, dealt, flipped, congrats, index);
      cards[index] := cards[index].(isFlipped := true);
      assert cards[..] == Flipped(before, index);
      if |flipped| == 0 {
        flipped := [index];
      } else if |flipped| == 1 {
        check := Some((flipped[0], index));
        flipped := [flipped[0], index];
        disabled := true;
      }
    }

    /**
     * `checkMatch(first, second)`, run by the timer with the pair `handleFlip`
     * recorded: equal values are matched, others turned face down; either way
     * the pair is cleared and the board unlocked.
     */
    method CheckMatch(first: nat, second: nat)
      requires Valid() && flipped == [first, second]
      modifies this, cards
      ensures Valid() && cards == old(cards) && dealt == old(dealt)
      ensures cards[..] == Checked(old(cards[..]), first, second)
      ensures flipped == [] && !disabled
    {
      ghost var before := cards[..];
      var a, b := cards[first], cards[second];
      if a.value == b.value {
        cards[first] := a.(isMatched := true);
        cards[second] := b.(isMatched := true);
      } else {
        cards[first] := a.(isFlipped := false);
        cards[second] := b.(isFlipped := false);
      }
      assert cards[..] == Checked(before, first, second);
      CheckedConsistent(before, dealt, first, second);
      flipped := [];
      disabled := false;
      var allMatched := forall i :: 0 <= i < cards.Length ==> cards[i].isMatched;
      assert allMatched == AllMatchedIn(cards[..]);
      if allMatched {
        congrats := true;
      }
    }
  }

  /** The cards after `handleFlip(index)` turned card `index` face up. */
  function Flipped(cs: seq<Card>, index: nat): seq<Card>
    requires index < |cs|
  {
    cs[index := cs[index].(isFlipped := true)]
  }

  /**
   * Turning up a face-down unmatched card on an unlocked board records it as
   * the next card of the pair and keeps the invariant: the board locks exactly
   * when it is the second card, no matched card changes, and the
   * congratulations stay hidden.
   */
  lemma FlippedConsistent(cs: seq<Card>, dealt: seq<string>, flipped: seq<nat>, congrats: bool, index: nat)
    requires Consistent(cs, dealt, flipped, false, congrats)
    requires index < 12 && !cs[index].isFlipped && !cs[index].isMatched
    ensures |flipped| <= 1 && !congrats
    ensures Consistent(Flipped(cs, index), dealt, flipped + [index], |flipped| == 1, false)
    ensures forall i :: 0 <= i < 12 ==> (Flipped(cs, index)[i].isMatched <==> cs[i].isMatched)
  {
    var r := Flipped(cs, index);
    assert !AllMatchedIn(cs) && !r[index].isMatched;
    if |flipped| == 1 {
      assert flipped[0] != index by {
        assert !FaceUpUnmatched(cs[index]);
      }
    }
    forall i | 0 <= i < 12
      ensures FaceUpUnmatched(r[i]) <==> i in flipped + [index]
    {
      if i != index {
        assert r[i] == cs[i];
      }
    }
  }

  /**
   * The cards after `checkMatch(first, second)`: a pair with equal values
   * becomes matched, any other pair is turned face down; every other card is
   * left alone.
   */
  function Checked(cs: seq<Card>, first: nat, second: nat): seq<Card>
    requires first < |cs| && second < |cs|
  {
    if cs[first].value == cs[second].value then
      cs[first := cs[first].(isMatched := true)][second := cs[second].(isMatched := true)]
    else
      cs[first := cs[first].(isFlipped := false)][second := cs[second].(isFlipped := false)]
  }

  /**
   * Checking the recorded pair restores the invariant with nothing flipped and
   * nothing locked, keeps every matched card matched, and shows the
   * congratulations exactly when every card is now matched.
   */
  lemma CheckedConsistent(cs: seq<Card>, dealt: seq<string>, first: nat, second: nat)
    requires Consistent(cs, dealt, [first, second], true, false)
    ensures Consistent(Checked(cs, first, second), dealt, [], false, AllMatchedIn(Checked(cs, first, second)))
    ensures forall i :: 0 <= i < 12 && cs[i].isMatched ==> Checked(cs, first, second)[i].isMatched
    ensures forall i :: 0 <= i < 12 ==> cs[i].value == Checked(cs, first, second)[i].value
    ensures |Checked(cs, first, second)| == 12
  {
    var r := Checked(cs, first, second);
    assert FaceUpUnmatched(cs[first]) && FaceUpUnmatched(cs[second]);
    forall i | 0 <= i < 12
      ensures FaceUpUnmatched(r[i]) <==> i in []
    {
      if i != first && i != second {
        assert r[i] == cs[i];
        assert !FaceUpUnmatched(cs[i]);
      }
    }
  }

  /** A set inside another is no larger. */
  lemma {:induction false} SubsetSize(a: set<nat>, b: set<nat>)
    requires a <= b
    ensures |a| <= |b|
    decreases b
  {
    if a != {} {
      var x :| x in a;
      SubsetSize(a - {x}, b - {x});
    }
  }
}
