/** Quiz distractors: `shuffle` (a Fisher-Yates pass over a copy of the
    array) and `sampleN`. The random draws are a parameter: `draws[i]` is the
    slot `Math.floor(Math.random() * (i + 1))` picks at step `i`. */
module Sampling {
  import opened Base
  import opened Vocabulary

  /** What the random source guarantees: the draw at step `i` is in `[0, i]`. */
  predicate DrawsInRange(draws: seq<nat>, n: nat)
  {
    |draws| >= n && forall i :: 0 <= i < n ==> draws[i] <= i
  }

  /** `arr.filter((x) => String(x.id) !== String(excludeId))` */
  function OtherCards(deck: seq<Card>, excludeId: string): (r: seq<Card>)
    ensures forall c :: c in r <==> c in deck && c.id != excludeId
  {
    Filter(deck, (c: Card) => c.id != excludeId)
  }

  /** `shuffle(arr)`: a permutation of `arr`, built by swapping slots of a
      copy from the last one down to the second. */
  method Shuffle<T>(arr: seq<T>, draws: seq<nat>) returns (r: seq<T>)
    requires DrawsInRange(draws, |arr|)
    ensures |r| == |arr|
    ensures multiset(r) == multiset(arr)
  {
    if |arr| == 0 {
      return [];
    }
    var a := new T[|arr|](k requires 0 <= k < |arr| => arr[k]);
    assert a[..] == arr;
    var i := a.Length - 1;
    while i > 0
      invariant 0 <= i < a.Length
      invariant multiset(a[..]) == multiset(arr)
    {
      var j := draws[i];
      a[i], a[j] := a[j], a[i];
      i := i - 1;
    }
    r := a[..];
  }

  /** `sampleN(arr, n, excludeId)`: up to `n` cards other than the excluded
      one, drawn without replacement; fewer when the deck is small. */
  method SampleN(arr: seq<Card>, n: nat, excludeId: string, draws: seq<nat>) returns (r: seq<Card>)
    requires DrawsInRange(draws, |arr|)
    ensures |r| == Min(n, |OtherCards(arr, excludeId)|)
    ensures forall c :: c in r ==> c in arr && c.id != excludeId
    ensures multiset(r) <= multiset(OtherCards(arr, excludeId))
  {
    var others := OtherCards(arr, excludeId);
    var shuffled := Shuffle(others, draws);
    var k := Min(n, |shuffled|);
    r := shuffled[..k];
    assert shuffled == r + shuffled[k..];
    assert multiset(shuffled) == multiset(r) + multiset(shuffled[k..]);
    forall c | c in r ensures c in others {
      assert c in multiset(r);
      assert c in multiset(shuffled);
      assert c in multiset(others);
    }
  }

  /** The quiz's answer choices: the right answer and the distractors'
      answers, shuffled. The right answer is always among them, and there
      are four choices when the deck has at least three other cards. */
  method QuizChoices(deck: seq<Card>, current: Card, en2vi: bool, draws: seq<nat>, order: seq<nat>)
    returns (choices: seq<string>)
    requires DrawsInRange(draws, |deck|) && DrawsInRange(order, |deck| + 1)
    ensures (if en2vi then current.meaningVi else current.word) in choices
    ensures |choices| == 1 + Min(3, |OtherCards(deck, current.id)|)
  {
    var wrong := SampleN(deck, 3, current.id, draws);
    var answers := seq(|wrong|, i requires 0 <= i < |wrong| => if en2vi then wrong[i].meaningVi else wrong[i].word);
    var items := [if en2vi then current.meaningVi else current.word] + answers;
    choices := Shuffle(items, order);
    assert items[0] in multiset(items);
  }
}
