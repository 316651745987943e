/** Which vocabulary card is studied next: the due cards, the new cards, the
    learning pool with its new-card budget, and the earliest-due card. */
module Selection {
  import opened Base
  import opened Scheduler
  import opened Vocabulary

  /** `w.srs?.due || 0` */
  function DueOf(c: Card): int
  {
    if c.srs.Some? then c.srs.value.due else 0
  }

  /** `w.srs?.reps || 0` */
  function RepsOf(c: Card): int
  {
    if c.srs.Some? then c.srs.value.reps else 0
  }

  predicate IsDue(c: Card, now: int)
  {
    DueOf(c) <= now
  }

  predicate IsNew(c: Card)
  {
    RepsOf(c) == 0
  }

  /** The cards due at `now` (a card without a state counts as due at time 0). */
  function DueCards(deck: seq<Card>, now: int): (r: seq<Card>)
    ensures forall c :: c in r <==> c in deck && IsDue(c, now)
    ensures |r| <= |deck|
  {
    Filter(deck, c => IsDue(c, now))
  }

  /** The cards never reviewed successfully since their last lapse. */
  function NewCards(deck: seq<Card>): (r: seq<Card>)
    ensures forall c :: c in r <==> c in deck && IsNew(c)
    ensures |r| <= |deck|
  {
    Filter(deck, c => IsNew(c))
  }

  /** The due cards followed by up to `newLimit - |due|` new cards (new cards
      that are also due are not skipped); the whole deck when that is empty. */
  function LearningPool(deck: seq<Card>, newLimit: int, now: int): (r: seq<Card>)
    ensures forall c :: c in r ==> c in deck
    ensures |r| == 0 <==> |deck| == 0
    ensures forall c :: c in deck && IsDue(c, now) ==> c in r
    ensures var due, newOnes := DueCards(deck, now), NewCards(deck);
      |due| > 0 || (newLimit > 0 && |newOnes| > 0) ==>
        && |r| == |due| + Min(Max(0, newLimit - |due|), |newOnes|)
        && r[..|due|] == due
        && r[|due|..] == newOnes[..|r| - |due|]
    ensures var due, newOnes := DueCards(deck, now), NewCards(deck);
      |due| == 0 && (newLimit <= 0 || |newOnes| == 0) ==> r == deck
  {
    var due := DueCards(deck, now);
    var newOnes := NewCards(deck);
    var remaining := Max(0, newLimit - |due|);
    var pool := if remaining > 0 then due + newOnes[..Min(remaining, |newOnes|)] else due;
    if |pool| > 0 then pool else deck
  }

  /** With nothing due and enough new cards, the pool is exactly the first
      `newLimit` new cards. */
  lemma LearningPoolAllNew(deck: seq<Card>, newLimit: int, now: int)
    requires |DueCards(deck, now)| == 0 && newLimit >= 1 && |NewCards(deck)| >= newLimit
    ensures LearningPool(deck, newLimit, now) == NewCards(deck)[..newLimit]
    ensures |LearningPool(deck, newLimit, now)| == newLimit
    ensures forall c :: c in LearningPool(deck, newLimit, now) ==> IsNew(c)
  {
    var pool := LearningPool(deck, newLimit, now);
    assert pool[|DueCards(deck, now)|..] == pool;
    forall c | c in pool ensures IsNew(c) {
      assert c in NewCards(deck);
    }
  }

  /** When the due cards already fill the budget, no new card is added. */
  lemma LearningPoolNoTopUp(deck: seq<Card>, newLimit: int, now: int)
    requires |DueCards(deck, now)| > 0 && newLimit <= |DueCards(deck, now)|
    ensures LearningPool(deck, newLimit, now) == DueCards(deck, now)
  {
  }

  /** When nothing is due and no new card may be added, the pool falls back
      to the whole deck. */
  lemma LearningPoolFallback(deck: seq<Card>, newLimit: int, now: int)
    requires |DueCards(deck, now)| == 0 && (newLimit <= 0 || |NewCards(deck)| == 0)
    ensures LearningPool(deck, newLimit, now) == deck
  {
  }

  /** Unless the pool falls back to the deck, every card in it is due or new. */
  lemma LearningPoolDueOrNew(deck: seq<Card>, newLimit: int, now: int)
    requires |DueCards(deck, now)| > 0 || (newLimit > 0 && |NewCards(deck)| > 0)
    ensures forall c :: c in LearningPool(deck, newLimit, now) ==> IsDue(c, now) || IsNew(c)
  {
    var due := DueCards(deck, now);
    var newOnes := NewCards(deck);
    var remaining := Max(0, newLimit - |due|);
    var pool := if remaining > 0 then due + newOnes[..Min(remaining, |newOnes|)] else due;
    assert |pool| > 0;
    forall c | c in pool ensures IsDue(c, now) || IsNew(c) {
      if c !in due {
        assert c in newOnes[..Min(remaining, |newOnes|)];
        assert c in newOnes;
      }
    }
  }

  /** A card never reviewed yet is both due and new, so the pool holds it twice. */
  lemma LearningPoolRepeatsDueNewCard(c: Card, newLimit: int, now: int)
    requires c.srs == Some(Default(c.createdAt)) && c.createdAt <= now && newLimit >= 2
    ensures LearningPool([c], newLimit, now) == [c, c]
  {
    assert DueCards([c], now) == [c];
    assert NewCards([c]) == [c];
  }

  /** The position `sort` by due time (stable) puts first: the earliest due
      card, the first of them in list order on ties. */
  function EarliestIndex(list: seq<Card>): (k: nat)
    requires |list| > 0
    ensures k < |list|
    ensures forall j :: 0 <= j < |list| ==> DueOf(list[k]) <= DueOf(list[j])
    ensures forall j :: 0 <= j < k ==> DueOf(list[j]) > DueOf(list[k])
    decreases |list|
  {
    if |list| == 1 then 0
    else
      var k := EarliestIndex(list[1..]);
      if DueOf(list[0]) <= DueOf(list[1 + k]) then 0 else 1 + k
  }

  /** `currentCard`: no card for an empty list, otherwise the earliest-due
      card of the learning pool (due-only mode) or of the whole deck. */
  function CurrentCard(dueOnly: bool, deck: seq<Card>, newLimit: int, now: int): (r: Option<Card>)
    ensures r.None? <==> |deck| == 0
    ensures r.Some? ==> r.value in deck
    ensures r.Some? ==> forall c :: c in (if dueOnly then LearningPool(deck, newLimit, now) else deck) ==>
      DueOf(r.value) <= DueOf(c)
    ensures r.Some? ==> r.value in (if dueOnly then LearningPool(deck, newLimit, now) else deck)
  {
    var list := if dueOnly then LearningPool(deck, newLimit, now) else deck;
    if |list| == 0 then None
    else
      var k := EarliestIndex(list);
      Some(list[k])
  }

  /** Ties go to list order: the current card is the first card of the list
      in use that is due that early, as a stable sort by due time puts it. */
  lemma CurrentCardIsFirstEarliest(dueOnly: bool, deck: seq<Card>, newLimit: int, now: int)
    requires |deck| > 0
    ensures var list := if dueOnly then LearningPool(deck, newLimit, now) else deck;
      var r := CurrentCard(dueOnly, deck, newLimit, now).value;
      exists k :: 0 <= k < |list| && list[k] == r && forall j :: 0 <= j < k ==> DueOf(list[j]) > DueOf(r)
  {
    var list := if dueOnly then LearningPool(deck, newLimit, now) else deck;
    var k := EarliestIndex(list);
    assert list[k] == CurrentCard(dueOnly, deck, newLimit, now).value;
  }
}
