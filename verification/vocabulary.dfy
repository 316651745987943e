/** The vocabulary deck: cards as the server sends them, the local progress
    map kept under one fixed storage key, and the merge that rebuilds the deck
    from a server response. */
module Vocabulary {
  import opened Base
  import opened Scheduler

  /** The single storage key under which the progress map is kept. */
  const StorageKey: string := "eng_vocab_progress_v1"

  datatype Example = Example(en: string, vi: string)

  /** A vocabulary item as the server returns it; absent JSON fields are `None`.
      `id` is the server's id in its string form. */
  datatype ServerVocab = ServerVocab(
    id: string,
    word: Option<string>,
    meaning: Option<string>,
    example: Option<string>,
    pronunciation: Option<string>,
    pos: Option<string>,
    cefr: Option<string>,
    topic: Option<string>,
    known: Option<bool>,
    favorite: Option<bool>,
    correctCount: Option<int>,
    wrongCount: Option<int>)

  /** A card of the in-memory deck. */
  datatype Card = Card(
    id: string,
    word: string,
    meaningVi: string,
    examples: seq<Example>,
    pronunciation: string,
    pos: string,
    cefr: string,
    topic: string,
    known: bool,
    favorite: bool,
    correctCount: int,
    wrongCount: int,
    srs: Option<Srs>,
    createdAt: int)

  /** A persisted progress entry; a field that is not stored is `None`. */
  datatype Entry = Entry(srs: Option<Srs>, createdAt: Option<int>, examples: Option<seq<Example>>)

  const EmptyEntry: Entry := Entry(None, None, None)

  /** A fresh card built from server data alone: content and server progress
      from the response, a default scheduling state due now. */
  function MapServerToCard(v: ServerVocab, t: int): (r: Card)
    ensures r.id == v.id && r.srs == Some(Default(t)) && r.createdAt == t
    ensures r.known == Truthy(v.known) && r.favorite == Truthy(v.favorite)
    ensures r.correctCount == OrZero(v.correctCount) && r.wrongCount == OrZero(v.wrongCount)
    ensures r.cefr != "" && |r.examples| <= 1
  {
    Card(
      id := v.id,
      word := OrString(v.word, ""),
      meaningVi := OrString(v.meaning, ""),
      examples := if v.example.Some? && v.example.value != "" then [Example(v.example.value, "")] else [],
      pronunciation := OrString(v.pronunciation, ""),
      pos := OrString(v.pos, ""),
      cefr := OrString(v.cefr, "A1"),
      topic := OrString(v.topic, ""),
      known := Truthy(v.known),
      favorite := Truthy(v.favorite),
      correctCount := OrZero(v.correctCount),
      wrongCount := OrZero(v.wrongCount),
      srs := Some(Default(t)),
      createdAt := t)
  }

  /** The locally owned fields of one card, taken from its progress entry. */
  function MergeCard(v: ServerVocab, progress: map<string, Entry>, t: int): Card
  {
    var base := MapServerToCard(v, t);
    if base.id !in progress then base
    else
      var p := progress[base.id];
      base.(
        srs := if p.srs.Some? then p.srs else base.srs,
        createdAt := if p.createdAt.Some? && p.createdAt.value != 0 then p.createdAt.value else base.createdAt,
        examples := if p.examples.Some? && |p.examples.value| > 0 then p.examples.value else base.examples)
  }

  /** `mergeServerWithLocalProgress`: one card per server item, in the
      server's order; server-owned fields always from the server, `srs`,
      `createdAt` and non-empty `examples` from the local entry when it has them. */
  function Merge(server: seq<ServerVocab>, progress: map<string, Entry>, t: int): (r: seq<Card>)
    ensures |r| == |server|
    ensures forall i :: 0 <= i < |r| ==> r[i].id == server[i].id
    ensures forall i :: 0 <= i < |r| ==>
      var base := MapServerToCard(server[i], t);
      r[i].(srs := base.srs, createdAt := base.createdAt, examples := base.examples) == base
    ensures forall i :: 0 <= i < |r| ==> server[i].id !in progress ==> r[i] == MapServerToCard(server[i], t)
    ensures forall i :: 0 <= i < |r| ==> server[i].id in progress ==>
      var p := progress[server[i].id];
      && r[i].srs == (if p.srs.Some? then p.srs else Some(Default(t)))
      && r[i].createdAt == (if p.createdAt.Some? && p.createdAt.value != 0 then p.createdAt.value else t)
      && (p.examples.Some? && |p.examples.value| > 0 ==> r[i].examples == p.examples.value)
      && (p.examples.None? || |p.examples.value| == 0 ==> r[i].examples == MapServerToCard(server[i], t).examples)
    ensures forall i :: 0 <= i < |r| ==> r[i].srs.Some?
  {
    seq(|server|, i requires 0 <= i < |server| => MergeCard(server[i], progress, t))
  }

  /** `{ ...prev, ...patch }` on a progress entry: fields the patch carries
      overwrite, the others are kept. */
  function Spread(prev: Entry, patch: Entry): (r: Entry)
    ensures r.srs == (if patch.srs.Some? then patch.srs else prev.srs)
    ensures r.createdAt == (if patch.createdAt.Some? then patch.createdAt else prev.createdAt)
    ensures r.examples == (if patch.examples.Some? then patch.examples else prev.examples)
  {
    Entry(
      if patch.srs.Some? then patch.srs else prev.srs,
      if patch.createdAt.Some? then patch.createdAt else prev.createdAt,
      if patch.examples.Some? then patch.examples else prev.examples)
  }

  /** The progress map after `saveProgress(id, patch)`: only key `id` changes. */
  function Saved(m: map<string, Entry>, id: string, patch: Entry): (r: map<string, Entry>)
    ensures r.Keys == m.Keys + {id}
    ensures forall k :: k in m && k != id ==> r[k] == m[k]
    ensures r[id] == Spread(if id in m then m[id] else EmptyEntry, patch)
  {
    m[id := Spread(if id in m then m[id] else EmptyEntry, patch)]
  }

  /** The fields `updateCard`'s updater may return. */
  datatype CardPatch = CardPatch(srs: Option<Srs>, known: Option<bool>, favorite: Option<bool>)

  function ApplyPatch(c: Card, patch: CardPatch): Card
  {
    c.(srs := if patch.srs.Some? then patch.srs else c.srs,
       known := if patch.known.Some? then patch.known.value else c.known,
       favorite := if patch.favorite.Some? then patch.favorite.value else c.favorite)
  }

  /** `updateCard(id, updater)`: every card with that id gets the patch; the
      other cards, the length and the order stay as they were. */
  function UpdateCard(deck: seq<Card>, id: string, patch: CardPatch): (r: seq<Card>)
    ensures |r| == |deck|
    ensures forall i :: 0 <= i < |deck| && deck[i].id != id ==> r[i] == deck[i]
    ensures forall i :: 0 <= i < |deck| && deck[i].id == id ==>
      && r[i].(srs := deck[i].srs, known := deck[i].known, favorite := deck[i].favorite) == deck[i]
      && r[i].srs == (if patch.srs.Some? then patch.srs else deck[i].srs)
      && r[i].known == (if patch.known.Some? then patch.known.value else deck[i].known)
      && r[i].favorite == (if patch.favorite.Some? then patch.favorite.value else deck[i].favorite)
  {
    seq(|deck|, i requires 0 <= i < |deck| => if deck[i].id == id then ApplyPatch(deck[i], patch) else deck[i])
  }

  /** The deck after `resetProgress`: every card back to the default
      scheduling state, everything else untouched. */
  function ResetDeck(deck: seq<Card>, t: int): (r: seq<Card>)
    ensures |r| == |deck|
    ensures forall i :: 0 <= i < |deck| ==> r[i] == deck[i].(srs := Some(Default(t)))
  {
    seq(|deck|, i requires 0 <= i < |deck| => deck[i].(srs := Some(Default(t))))
  }

  /** `schedule(card, grade)` as the page writes it: the fields are copied
      into locals and reassigned case by case. */
  method Schedule(card: Card, grade: string, t: int) returns (r: Srs)
    ensures r == Apply(Start(card.srs, t), grade, t)
  {
    var s := if card.srs.Some? then card.srs.value else Srs(0, DefaultEase, 0, t, 0);
    var reps, ease, interval, lapses := s.reps, s.ease, s.interval, s.lapses;
    if grade == "again" {
      lapses := lapses + 1;
      reps := 0;
      ease := Max(MinEase, ease - 20);
      interval := 0;
      return Srs(reps, ease, interval, t + AgainDelayMs, lapses);
    } else if grade == "hard" {
      ease := Max(MinEase, ease - 15);
      interval := if interval != 0 then Max(1, RoundHundredths(interval * 120)) else 1;
      reps := Max(1, reps);
      return Srs(reps, ease, interval, t + interval * MsPerDay, lapses);
    } else if grade == "good" {
      reps := reps + 1;
      if interval == 0 {
        interval := 1;
      } else {
        interval := Max(1, RoundHundredths(interval * ease));
      }
      return Srs(reps, ease, interval, t + interval * MsPerDay, lapses);
    } else if grade == "easy" {
      reps := reps + 1;
      ease := ease + 15;
      interval := if interval != 0 then RoundHundredths(interval * (ease + 15)) else 3;
      return Srs(reps, ease, interval, t + interval * MsPerDay, lapses);
    } else {
      return s;
    }
  }

  // ---------------------------------------------------------------------
  // Properties across operations

  /** A grade saved with `saveProgress` survives the next merge of a server
      response that still holds the card: the merged card carries the saved
      state, not a fresh default. */
  lemma GradeSurvivesReload(server: seq<ServerVocab>, progress: map<string, Entry>, i: int,
                            next: Srs, createdAt: int, t: int)
    requires 0 <= i < |server|
    ensures Merge(server, Saved(progress, server[i].id, Entry(Some(next), Some(createdAt), None)), t)[i].srs == Some(next)
  {
  }

  /** After the progress map is cleared, every merged card is exactly the
      server's card with a default state. */
  lemma MergeAfterClear(server: seq<ServerVocab>, t: int)
    ensures forall i :: 0 <= i < |server| ==> Merge(server, map[], t)[i] == MapServerToCard(server[i], t)
  {
  }
}
