/** The grammar deck: topics as the server sends them, the per-user local
    deck, the merge that rebuilds the deck from a server response, the
    mastery rule, the daily review list and the progress counts. */
module Grammar {
  import opened Base
  import opened Scheduler

  const BaseStorageKey: string := "grammar_deck_v1"
  /** A topic reviewed this many times counts as mastered. */
  const MasteredReps: int := 5
  /** A topic scheduled at least this many days ahead counts as mastered. */
  const MasteredIntervalDays: int := 7
  /** How many topics the daily review list shows at most. */
  const ReviewListSize: nat := 5

  datatype Form = Form(subject: string, verb: string)
  datatype Mistake = Mistake(wrong: string, right: string, note: string)
  datatype Example = Example(en: string, vi: string)
  /** `correct` is the index of the right option. */
  datatype Quiz = Quiz(question: string, options: seq<string>, correct: int, explain: string)

  /** A grammar topic as the server returns it; an absent field is `None`, and
      so is a list field that is not an array. */
  datatype ServerGrammar = ServerGrammar(
    id: string,
    level: Option<string>,
    title: Option<string>,
    meaning: Option<string>,
    summary: Option<string>,
    rules: Option<seq<string>>,
    forms: Option<seq<Form>>,
    commonMistakes: Option<seq<Mistake>>,
    examples: Option<seq<Example>>,
    quiz: Option<Quiz>,
    known: Option<bool>,
    favorite: Option<bool>,
    correctCount: Option<int>,
    wrongCount: Option<int>,
    lastReviewedAt: Option<string>)

  /** A topic of the deck; the local deck is stored as a list of these, so a
      stored topic may lack its `srs` or `createdAt`. */
  datatype Card = Card(
    id: string,
    level: string,
    title: string,
    meaning: string,
    summary: string,
    rules: seq<string>,
    forms: seq<Form>,
    commonMistakes: seq<Mistake>,
    examples: seq<Example>,
    quiz: Option<Quiz>,
    srs: Option<Srs>,
    createdAt: Option<int>,
    known: bool,
    favorite: bool,
    correctCount: int,
    wrongCount: int,
    lastReviewedAt: Option<string>)

  function OrList<T>(o: Option<seq<T>>): seq<T>
  {
    if o.Some? then o.value else []
  }

  /** `mapServerToCard(g)`: the server's content and progress, a default
      scheduling state due now; `lastReviewedAt || null` turns an empty
      review date into none. */
  function MapServerToCard(g: ServerGrammar, t: int): (r: Card)
    ensures r.id == g.id && r.srs == Some(Default(t)) && r.createdAt == Some(t)
    ensures r.known == Truthy(g.known) && r.favorite == Truthy(g.favorite)
    ensures r.correctCount == OrZero(g.correctCount) && r.wrongCount == OrZero(g.wrongCount)
    ensures r.level != "" && r.quiz == g.quiz
    ensures r.lastReviewedAt.None? <==> g.lastReviewedAt.None? || g.lastReviewedAt == Some("")
    ensures r.lastReviewedAt.Some? ==> r.lastReviewedAt == g.lastReviewedAt
  {
    Card(
      id := g.id,
      level := OrString(g.level, "A1"),
      title := OrString(g.title, ""),
      meaning := OrString(g.meaning, ""),
      summary := OrString(g.summary, ""),
      rules := OrList(g.rules),
      forms := OrList(g.forms),
      commonMistakes := OrList(g.commonMistakes),
      examples := OrList(g.examples),
      quiz := g.quiz,
      srs := Some(Default(t)),
      createdAt := Some(t),
      known := Truthy(g.known),
      favorite := Truthy(g.favorite),
      correctCount := OrZero(g.correctCount),
      wrongCount := OrZero(g.wrongCount),
      lastReviewedAt := if g.lastReviewedAt == Some("") then None else g.lastReviewedAt)
  }

  /** A load keeps only the topics the server listed: a stored topic whose id
      the server did not return (for example, one outside the level or search
      filter) has no topic in the merge, and so none in the store it replaces. */
  lemma MergeDropsUnlisted(server: seq<ServerGrammar>, local: seq<Card>, t: int, c: Card)
    requires c in local
    requires forall i :: 0 <= i < |server| ==> server[i].id != c.id
    ensures forall m :: m in Merge(server, local, t) ==> m.id != c.id
  {
    var r := Merge(server, local, t);
    forall m | m in r ensures m.id != c.id {
      var i :| 0 <= i < |r| && r[i] == m;
      assert m.id == server[i].id;
    }
  }

  /** The entry `new Map(local.map(c => [c.id, c])).get(id)` finds: the LAST
      local topic with that id, since a later pair overwrites an earlier one. */
  function LastWithId(local: seq<Card>, id: string): (r: Option<Card>)
    ensures r.None? <==> forall j :: 0 <= j < |local| ==> local[j].id != id
    ensures r.Some? ==> exists j :: (0 <= j < |local| && local[j] == r.value && local[j].id == id
                                     && forall k :: j < k < |local| ==> local[k].id != id)
  {
    if |local| == 0 then None
    else if local[|local| - 1].id == id then Some(local[|local| - 1])
    else
      var r := LastWithId(local[..|local| - 1], id);
      assert forall j :: 0 <= j < |local| - 1 ==> local[..|local| - 1][j] == local[j];
      r
  }

  /** One merged topic: the server's topic with the local `srs` and
      `createdAt` (a missing field, and a `createdAt` of 0, keep the server's). */
  function MergeCard(v: ServerGrammar, local: seq<Card>, t: int): (c: Card)
    ensures c.id == v.id
    ensures c.(srs := Some(Default(t)), createdAt := Some(t)) == MapServerToCard(v, t)
    ensures LastWithId(local, v.id).None? ==> c == MapServerToCard(v, t)
    ensures LastWithId(local, v.id).Some? ==>
      var l := LastWithId(local, v.id).value;
      && c.srs == (if l.srs.Some? then l.srs else Some(Default(t)))
      && c.createdAt == (if l.createdAt.Some? && l.createdAt.value != 0 then l.createdAt else Some(t))
    ensures c.srs.Some? && c.createdAt.Some?
  {
    var base := MapServerToCard(v, t);
    var l := LastWithId(local, base.id);
    if l.None? then base
    else
      base.(
        srs := if l.value.srs.Some? then l.value.srs else base.srs,
        createdAt := if l.value.createdAt.Some? && l.value.createdAt.value != 0 then l.value.createdAt else base.createdAt)
  }

  /** `mergeServerWithLocal(serverArr, localDeck)`: one topic per server
      topic in the server's order (topics only stored locally are dropped);
      everything but `srs` and `createdAt` from the server. */
  function Merge(server: seq<ServerGrammar>, local: seq<Card>, t: int): (r: seq<Card>)
    ensures |r| == |server|
    ensures forall i :: 0 <= i < |r| ==> r[i].id == server[i].id
    ensures forall i :: 0 <= i < |r| ==>
      r[i].(srs := MapServerToCard(server[i], t).srs, createdAt := Some(t)) == MapServerToCard(server[i], t)
    ensures forall i :: 0 <= i < |r| ==> LastWithId(local, server[i].id).None? ==> r[i] == MapServerToCard(server[i], t)
    ensures forall i :: 0 <= i < |r| ==> LastWithId(local, server[i].id).Some? ==>
      var l := LastWithId(local, server[i].id).value;
      && r[i].srs == (if l.srs.Some? then l.srs else Some(Default(t)))
      && r[i].createdAt == (if l.createdAt.Some? && l.createdAt.value != 0 then l.createdAt else Some(t))
    ensures forall i :: 0 <= i < |r| ==> r[i].srs.Some? && r[i].createdAt.Some?
  {
    seq(|server|, i requires 0 <= i < |server| => MergeCard(server[i], local, t))
  }

  /** Reloading is stable: merging the same server list into a deck that is
      itself a merge result changes nothing, so a reload never resets
      progress (as long as the first merge did not happen at time 0, which
      would store a falsy `createdAt`). */
  lemma {:induction false} ReloadIsStable(server: seq<ServerGrammar>, local: seq<Card>, t1: int, t2: int)
    requires t1 != 0
    ensures Merge(server, Merge(server, local, t1), t2) == Merge(server, local, t1)
  {
    var m := Merge(server, local, t1);
    var m2 := Merge(server, m, t2);
    forall i | 0 <= i < |server|
      ensures m2[i] == m[i]
    {
      ReloadKeepsCard(server, local, t1, t2, i);
    }
  }

  /** One topic of `ReloadIsStable`. */
  lemma {:induction false} ReloadKeepsCard(server: seq<ServerGrammar>, local: seq<Card>, t1: int, t2: int, i: int)
    requires t1 != 0 && 0 <= i < |server|
    ensures Merge(server, Merge(server, local, t1), t2)[i] == Merge(server, local, t1)[i]
  {
    var m := Merge(server, local, t1);
    var c1, c2 := m[i], Merge(server, m, t2)[i];
    ReloadKeepsState(server, local, t1, t2, i);
    MergedIsServerCard(server, local, t1, i);
    MergedIsServerCard(server, m, t2, i);
    assert c2 == MapServerToCard(server[i], t2).(srs := c1.srs, createdAt := c1.createdAt);
  }

  /** A merged topic is the server's topic with only `srs` and `createdAt` replaced. */
  lemma MergedIsServerCard(server: seq<ServerGrammar>, local: seq<Card>, t: int, i: int)
    requires 0 <= i < |server|
    ensures var c := Merge(server, local, t)[i];
      forall t' :: c == MapServerToCard(server[i], t').(srs := c.srs, createdAt := c.createdAt)
  {
  }

  /** The scheduling fields of `ReloadKeepsCard`: the second merge finds a
      first-merge topic with the same id, whose fields are set and non-zero. */
  lemma {:induction false} ReloadKeepsState(server: seq<ServerGrammar>, local: seq<Card>, t1: int, t2: int, i: int)
    requires t1 != 0 && 0 <= i < |server|
    ensures var m := Merge(server, local, t1);
      Merge(server, m, t2)[i].srs == m[i].srs && Merge(server, m, t2)[i].createdAt == m[i].createdAt
  {
    var m := Merge(server, local, t1);
    var v := server[i];
    assert m[i] == MergeCard(v, local, t1);
    var l := LastWithId(m, v.id);
    assert m[i].id == v.id;
    var j :| 0 <= j < |m| && m[j] == l.value && m[j].id == v.id;
    assert m[j] == MergeCard(server[j], local, t1);
    SameIdSameState(server[j], v, local, t1);
    assert Merge(server, m, t2)[i] == MergeCard(v, m, t2);
  }

  /** Two server topics with one id get the same local fields, and those
      are set (with a non-zero `createdAt` when the merge time is not 0). */
  lemma SameIdSameState(v: ServerGrammar, w: ServerGrammar, local: seq<Card>, t: int)
    requires v.id == w.id && t != 0
    ensures MergeCard(v, local, t).srs == MergeCard(w, local, t).srs
    ensures MergeCard(v, local, t).createdAt == MergeCard(w, local, t).createdAt
    ensures MergeCard(v, local, t).srs.Some?
    ensures MergeCard(v, local, t).createdAt.Some? && MergeCard(v, local, t).createdAt.value != 0
  {
  }

  /** `isMastered(card)`: false for a missing topic; true when the server
      marked it known; otherwise when it has been reviewed at least 5 times
      in a row or is scheduled at least 7 days ahead. */
  predicate IsMastered(card: Option<Card>)
  {
    && card.Some?
    && (card.value.known
        || (if card.value.srs.Some? then card.value.srs.value.reps else 0) >= MasteredReps
        || (if card.value.srs.Some? then card.value.srs.value.interval else 0) >= MasteredIntervalDays)
  }

  /** A mastered topic stays mastered after a "good" or "easy" review. */
  lemma {:induction false} SuccessKeepsMastered(c: Card, g: Grade, t: int)
    requires c.srs.Some? ==> Valid(c.srs.value)
    requires IsMastered(Some(c)) && (g == Good || g == Easy)
    ensures IsMastered(Some(c.(srs := Some(Next(Start(c.srs, t), g, t)))))
  {
    var s := Start(c.srs, t);
    assert Valid(s);
    IntervalGrows(s, g, t);
  }

  /** An "again" review un-masters every topic the server has not marked
      known; a topic the server marked known stays mastered whatever the grade. */
  lemma AgainUnmasters(c: Card, grade: string, t: int)
    ensures grade == "again" ==>
      (IsMastered(Some(c.(srs := Some(Apply(Start(c.srs, t), grade, t))))) <==> c.known)
    ensures c.known ==> IsMastered(Some(c.(srs := Some(Apply(Start(c.srs, t), grade, t)))))
  {
  }

  /** A fresh topic graded "good" twice (intervals 1 and 3 days) is not yet
      mastered; a third "good" makes it so, through its 8-day interval. */
  lemma FreshTopicMastery(c: Card, t: int)
    requires c.srs == Some(Default(t)) && !c.known
    ensures var s1 := Next(Default(t), Good, t);
      var s2 := Next(s1, Good, t);
      var s3 := Next(s2, Good, t);
      && !IsMastered(Some(c.(srs := Some(s2))))
      && s3.interval == 8 && IsMastered(Some(c.(srs := Some(s3))))
  {
  }

  /** `schedule(card, grade)` of the grammar page: the same switch over the
      same locals, so the same result as the vocabulary page's. */
  method Schedule(card: Card, grade: string, t: int) returns (r: Srs)
    ensures r == Apply(Start(card.srs, t), grade, t)
  {
    var s := if card.srs.Some? then card.srs.value else Srs(0, DefaultEase, 0, t, 0);
    var reps, ease, interval, lapses := s.reps, s.ease, s.interval, s.lapses;
    if grade == "again" {
      lapses := lapses + 1;
      reps := 0;
      ease := Max(MinEase, ease - 20);
      interval := 0;
      return Srs(reps, ease, interval, t + AgainDelayMs, lapses);
    } else if grade == "hard" {
      ease := Max(MinEase, ease - 15);
      interval := if interval != 0 then Max(1, RoundHundredths(interval * 120)) else 1;
      reps := Max(1, reps);
      return Srs(reps, ease, interval, t + interval * MsPerDay, lapses);
    } else if grade == "good" {
      reps := reps + 1;
      interval := if interval == 0 then 1 else Max(1, RoundHundredths(interval * ease));
      return Srs(reps, ease, interval, t + interval * MsPerDay, lapses);
    } else if grade == "easy" {
      reps := reps + 1;
      ease := ease + 15;
      interval := if interval != 0 then RoundHundredths(interval * (ease + 15)) else 3;
      return Srs(reps, ease, interval, t + interval * MsPerDay, lapses);
    } else {
      return s;
    }
  }

  /** A topic with its scheduling state advanced by `grade`. */
  function Rescheduled(c: Card, grade: string, t: int): Card
  {
    c.(srs := Some(Apply(Start(c.srs, t), grade, t)))
  }

  /** The deck `updateCard(cardId, grade)` computes: every topic with that id
      rescheduled, the others, the length and the order kept. */
  function UpdateDeck(deck: seq<Card>, id: string, grade: string, t: int): (r: seq<Card>)
    ensures |r| == |deck|
    ensures forall i :: 0 <= i < |deck| && deck[i].id != id ==> r[i] == deck[i]
    ensures forall i :: 0 <= i < |deck| && deck[i].id == id ==>
      r[i].(srs := deck[i].srs) == deck[i] && r[i].srs == Some(Apply(Start(deck[i].srs, t), grade, t))
  {
    seq(|deck|, i requires 0 <= i < |deck| => if deck[i].id == id then Rescheduled(deck[i], grade, t) else deck[i])
  }

  /** `list.find((x) => String(x.id) === String(id))`: the FIRST topic with that id. */
  function FindById(list: seq<Card>, id: string): (r: Option<Card>)
    ensures r.None? <==> forall j :: 0 <= j < |list| ==> list[j].id != id
    ensures r.Some? ==> exists j :: (0 <= j < |list| && list[j] == r.value && r.value.id == id
                                     && forall k :: 0 <= k < j ==> list[k].id != id)
  {
    if |list| == 0 then None
    else if list[0].id == id then Some(list[0])
    else
      var r := FindById(list[1..], id);
      assert forall j :: 1 <= j < |list| ==> list[1..][j - 1] == list[j];
      r
  }

  /** After `updateCard`, the topic found under the id carries the new state. */
  lemma {:induction false} FindAfterUpdate(deck: seq<Card>, id: string, grade: string, t: int)
    ensures var r := FindById(UpdateDeck(deck, id, grade, t), id);
      var before := FindById(deck, id);
      && r.Some? == before.Some?
      && (r.Some? ==> r.value == Rescheduled(before.value, grade, t))
  {
    var u := UpdateDeck(deck, id, grade, t);
    var r := FindById(u, id);
    var before := FindById(deck, id);
    if r.Some? {
      var j :| 0 <= j < |u| && u[j] == r.value && r.value.id == id && forall k :: 0 <= k < j ==> u[k].id != id;
      assert deck[j].id == id;
    }
  }

  /** `(c.srs.due || 0)` */
  function DueOf(c: Card): int
  {
    if c.srs.Some? then c.srs.value.due else 0
  }

  /** `(c.srs?.reps || 0)` */
  function RepsOf(c: Card): int
  {
    if c.srs.Some? then c.srs.value.reps else 0
  }

  /** The review panel's filter: no scheduling state, or due by `now`. */
  predicate NeedsReview(c: Card, now: int)
  {
    c.srs.None? || DueOf(c) <= now
  }

  /** The review panel's list: the first five topics, in deck order, that
      need review. */
  function ReviewList(deck: seq<Card>, now: int): (r: seq<Card>)
    ensures |r| == Min(ReviewListSize, |Filter(deck, c => NeedsReview(c, now))|)
    ensures r == Filter(deck, c => NeedsReview(c, now))[..|r|]
    ensures forall c :: c in r ==> c in deck && NeedsReview(c, now)
  {
    var due := Filter(deck, c => NeedsReview(c, now));
    due[..Min(ReviewListSize, |due|)]
  }

  /** Until ten minutes after a review, the reviewed topic is not on the
      review list: every grade schedules it past the review time, "again" by
      ten minutes and the others by at least a day. */
  lemma {:induction false} GradedTopicLeavesReviewList(deck: seq<Card>, id: string, grade: string, t: int, now: int)
    requires ParseGrade(grade).Some?
    requires forall i :: 0 <= i < |deck| && deck[i].id == id && deck[i].srs.Some? ==> Valid(deck[i].srs.value)
    requires t <= now < t + AgainDelayMs
    ensures forall c :: c in ReviewList(UpdateDeck(deck, id, grade, t), now) ==> c.id != id
  {
    var u := UpdateDeck(deck, id, grade, t);
    forall k | 0 <= k < |u| && deck[k].id == id
      ensures !NeedsReview(u[k], now)
    {
      RescheduledNotDue(deck[k], grade, t, now);
    }
  }

  /** One topic of `GradedTopicLeavesReviewList`. */
  lemma {:induction false} RescheduledNotDue(c: Card, grade: string, t: int, now: int)
    requires ParseGrade(grade).Some?
    requires c.srs.Some? ==> Valid(c.srs.value)
    requires t <= now < t + AgainDelayMs
    ensures !NeedsReview(Rescheduled(c, grade, t), now)
  {
    var s := Start(c.srs, t);
    assert Valid(s);
    var g := ParseGrade(grade).value;
    if g != Again {
      IntervalGrows(s, g, t);
    }
  }

  /** `prev.filter((c) => String(c.id) !== String(id))` */
  function RemoveId(list: seq<Card>, id: string): (r: seq<Card>)
    ensures forall c :: c in r <==> c in list && c.id != id
    ensures |r| <= |list|
  {
    Filter(list, (c: Card) => c.id != id)
  }

  /** The four counts the progress panel shows. */
  datatype Stats = Stats(total: nat, learned: nat, due: nat, mastered: nat)

  /** `GrammarStats`: all topics; those reviewed successfully since their last
      lapse; those due by `now` (a topic without a state counts as due at 0);
      the mastered ones. */
  function GrammarStats(deck: seq<Card>, now: int): (r: Stats)
    ensures r.total == |deck|
    ensures r.learned <= r.total && r.due <= r.total && r.mastered <= r.total
    ensures r.learned == |Filter(deck, c => RepsOf(c) > 0)|
    ensures r.due == |Filter(deck, c => DueOf(c) <= now)|
    ensures r.mastered == |Filter(deck, c => IsMastered(Some(c)))|
  {
    Stats(|deck|,
          |Filter(deck, c => RepsOf(c) > 0)|,
          |Filter(deck, c => DueOf(c) <= now)|,
          |Filter(deck, c => IsMastered(Some(c)))|)
  }

  /** Filtering with two tests that agree on every element gives one result. */
  lemma {:induction false} FilterSame(s: seq<Card>, p: Card -> bool, q: Card -> bool)
    requires forall c :: c in s ==> p(c) == q(c)
    ensures Filter(s, p) == Filter(s, q)
    decreases |s|
  {
    if |s| > 0 {
      FilterSame(s[1..], p, q);
    }
  }

  /** From time 0 on the review list is the first five of the topics the
      progress panel counts as due, so it holds min(5, due) topics. */
  lemma ReviewListMatchesStats(deck: seq<Card>, now: int)
    requires now >= 0
    ensures |ReviewList(deck, now)| == Min(ReviewListSize, GrammarStats(deck, now).due)
    ensures ReviewList(deck, now) == Filter(deck, c => DueOf(c) <= now)[..|ReviewList(deck, now)|]
  {
    FilterSame(deck, c => NeedsReview(c, now), c => DueOf(c) <= now);
  }

  /** The per-user storage key: `grammar_deck_v1_<id>` for the signed-in
      user the server names, `grammar_deck_v1_guest` when that lookup fails. */
  function StorageKeyFor(me: Option<string>): (r: string)
    ensures |r| > |BaseStorageKey|
    ensures r[..|BaseStorageKey| + 1] == BaseStorageKey + "_"
    ensures me.Some? ==> r[|BaseStorageKey| + 1..] == me.value
    ensures me.None? ==> r[|BaseStorageKey| + 1..] == "guest"
  {
    BaseStorageKey + "_" + (if me.Some? then me.value else "guest")
  }

  /** Different users never share a deck, and a numeric user id never
      shares the guest deck. */
  lemma {:induction false} StorageKeysDistinct(a: Option<string>, b: Option<string>)
    requires a.Some? ==> IsServerId(a.value)
    requires b.Some? ==> IsServerId(b.value)
    ensures StorageKeyFor(a) == StorageKeyFor(b) <==> a == b
  {
    var ka, kb := StorageKeyFor(a), StorageKeyFor(b);
    var n := |BaseStorageKey| + 1;
    if ka == kb {
      assert ka[n..] == kb[n..];
    }
  }
}
