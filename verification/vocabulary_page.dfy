/** The vocabulary study page's state and the handlers that change it: loading
    the deck, grading the current card (flashcard or quiz), saving progress,
    resetting it, and the best-effort backend sync that follows a review. */
module VocabularyStudy {
  import opened Base
  import opened Scheduler
  import opened Vocabulary
  import opened Selection

  /** The sync requests the page sends to the backend. */
  datatype Request = Answer(id: string, correct: bool) | SetKnown(id: string, known: bool)

  /** What the backend sync after a review does: the requests it sends and
      whether the card is then marked known locally. */
  datatype SyncResult = SyncResult(sent: seq<Request>, markKnown: bool)

  /** The sync after a review with the given correctness and new `reps`.
      `answerOk` and `knownOk` say whether the answer and known requests
      succeed; a failed request ends the sync. Requests are only made for
      server ids, but a local id is still marked known locally. */
  function Sync(id: string, correct: bool, reps: int, answerOk: bool, knownOk: bool): (r: SyncResult)
    ensures !IsServerId(id) ==> r.sent == []
    ensures IsServerId(id) ==> 1 <= |r.sent| <= 2 && r.sent[0] == Answer(id, correct)
    ensures SetKnown(id, true) in r.sent <==> IsServerId(id) && answerOk && correct && reps >= 3
    ensures r.markKnown <==> correct && reps >= 3 && (IsServerId(id) ==> answerOk && knownOk)
    ensures forall q :: q in r.sent ==> q.id == id && (q.SetKnown? ==> q.known)
  {
    if !IsServerId(id) then SyncResult([], correct && reps >= 3)
    else if !answerOk then SyncResult([Answer(id, correct)], false)
    else if correct && reps >= 3 then SyncResult([Answer(id, correct), SetKnown(id, true)], knownOk)
    else SyncResult([Answer(id, correct)], false)
  }

  /** The part of the page state a review changes. */
  datatype Study = Study(deck: seq<Card>, progress: map<string, Entry>, requests: seq<Request>)

  /** `createdAt: currentCard.createdAt || now()` */
  function CreatedAtOr(c: Card, t: int): int
  {
    if c.createdAt != 0 then c.createdAt else t
  }

  /** The state after reviewing `card` with `grade`: its new scheduling state
      goes into the deck and the progress map, then the sync runs. */
  function AfterReview(st: Study, card: Card, grade: string, correct: bool, t: int, answerOk: bool, knownOk: bool): Study
  {
    var next := Apply(Start(card.srs, t), grade, t);
    var sync := Sync(card.id, correct, next.reps, answerOk, knownOk);
    var graded := UpdateCard(st.deck, card.id, CardPatch(Some(next), None, None));
    Study(
      if sync.markKnown then UpdateCard(graded, card.id, CardPatch(None, Some(true), None)) else graded,
      Saved(st.progress, card.id, Entry(Some(next), Some(CreatedAtOr(card, t)), None)),
      st.requests + sync.sent)
  }

  /** A review changes only the reviewed card: every other card and every
      other progress entry stay as they were, the graded card gets the new
      state and is marked known only after a correct review reaching 3 reps,
      and the progress entry keeps its other stored fields. */
  lemma {:induction false} ReviewTouchesOnlyCard(st: Study, card: Card, grade: string, correct: bool,
                                                  t: int, answerOk: bool, knownOk: bool)
    ensures var r := AfterReview(st, card, grade, correct, t, answerOk, knownOk);
      var next := Apply(Start(card.srs, t), grade, t);
      && |r.deck| == |st.deck|
      && (forall i :: 0 <= i < |st.deck| && st.deck[i].id != card.id ==> r.deck[i] == st.deck[i])
      && (forall i :: 0 <= i < |st.deck| && st.deck[i].id == card.id ==>
            r.deck[i].srs == Some(next) && r.deck[i].favorite == st.deck[i].favorite
            && (r.deck[i].known != st.deck[i].known ==> r.deck[i].known && correct && next.reps >= 3))
      && (forall k :: k in st.progress && k != card.id ==> k in r.progress && r.progress[k] == st.progress[k])
      && r.progress[card.id].srs == Some(next)
      && (card.id in st.progress ==> r.progress[card.id].examples == st.progress[card.id].examples)
      && |st.requests| <= |r.requests|
      && r.requests[..|st.requests|] == st.requests
  {
    var r := AfterReview(st, card, grade, correct, t, answerOk, knownOk);
    var next := Apply(Start(card.srs, t), grade, t);
    var sync := Sync(card.id, correct, next.reps, answerOk, knownOk);
    var graded := UpdateCard(st.deck, card.id, CardPatch(Some(next), None, None));
    assert r.requests == st.requests + sync.sent;
    forall i | 0 <= i < |st.deck| && st.deck[i].id == card.id
      ensures r.deck[i].srs == Some(next) && r.deck[i].favorite == st.deck[i].favorite
      ensures r.deck[i].known != st.deck[i].known ==> r.deck[i].known && correct && next.reps >= 3
    {
      assert graded[i].id == card.id;
    }
  }

  /** The answer a quiz question asks for: the meaning, or the word when
      the quiz goes from Vietnamese to English. */
  function QuizAnswerOf(card: Card, en2vi: bool): string
  {
    if en2vi then card.meaningVi else card.word
  }

  /** What a content load ends with. */
  datatype LoadOutcome =
    | Loaded(items: Option<seq<ServerVocab>>)  // None: the response was not an array
    | Failed(message: Option<string>)

  const LoadErrorMessage: string := "Không thể tải từ vựng từ backend"

  class VocabularyPage {
    var deck: seq<Card>
    /** The progress map stored under `StorageKey`; a missing or unparsable
        value reads as the empty map. */
    var progress: map<string, Entry>
    /** Every sync request sent so far, in order. */
    var requests: seq<Request>
    var serverLoading: bool
    var serverError: string
    var dueOnly: bool
    var newLimit: int
    var isAnswered: bool
    var selectedChoice: Option<string>

    constructor (stored: map<string, Entry>)
      ensures deck == [] && progress == stored && requests == []
      ensures serverLoading && serverError == ""
      ensures dueOnly && newLimit == 20 && !isAnswered && selectedChoice == None
    {
      deck := [];
      progress := stored;
      requests := [];
      serverLoading := true;
      serverError := "";
      dueOnly := true;
      newLimit := 20;
      isAnswered := false;
      selectedChoice := None;
    }

    /** `saveProgress(id, patch)`: read the map, overwrite the entry under
        `id` with the old entry spread with the patch, write the map back. */
    method SaveProgress(id: string, patch: Entry)
      modifies this`progress
      ensures progress == Saved(old(progress), id, patch)
    {
      var m := progress;
      var prev := if id in m then m[id] else EmptyEntry;
      m := m[id := Spread(prev, patch)];
      progress := m;
    }

    /** `clearAllProgress()`: the stored map is removed. */
    method ClearAllProgress()
      modifies this`progress
      ensures progress == map[]
    {
      progress := map[];
    }

    /** `fetchVocab` once its request has completed: the deck is rebuilt from
        the response and the progress map, or emptied on an error. */
    method Load(outcome: LoadOutcome, t: int)
      modifies this`deck, this`serverError, this`serverLoading
      ensures outcome.Loaded? ==>
        deck == Merge(if outcome.items.Some? then outcome.items.value else [], progress, t) && serverError == ""
      ensures outcome.Failed? ==> deck == [] && serverError == OrString(outcome.message, LoadErrorMessage)
      ensures !serverLoading
    {
      serverLoading := true;
      serverError := "";
      if outcome.Loaded? {
        var serverArr := if outcome.items.Some? then outcome.items.value else [];
        deck := Merge(serverArr, progress, t);
      } else {
        serverError := OrString(outcome.message, LoadErrorMessage);
        deck := [];
      }
      serverLoading := false;
    }

    /** The shared body of `handleGrade` and `handleQuizAnswer` once the
        grade is known. */
    method Review(card: Card, grade: string, correct: bool, t: int, answerOk: bool, knownOk: bool)
      modifies this`deck, this`progress, this`requests
      ensures Study(deck, progress, requests)
        == AfterReview(Study(old(deck), old(progress), old(requests)), card, grade, correct, t, answerOk, knownOk)
    {
      var next := Schedule(card, grade, t);
      deck := UpdateCard(deck, card.id, CardPatch(Some(next), None, None));
      SaveProgress(card.id, Entry(Some(next), Some(CreatedAtOr(card, t)), None));
      // backend sync: apiAnswer, then apiSetKnown on promotion; a failed
      // request throws and skips the rest
      if IsServerId(card.id) {
        requests := requests + [Answer(card.id, correct)];
        if !answerOk {
          return;
        }
      }
      if next.reps >= 3 && correct {
        if IsServerId(card.id) {
          requests := requests + [SetKnown(card.id, true)];
          if !knownOk {
            return;
          }
        }
        deck := UpdateCard(deck, card.id, CardPatch(None, Some(true), None));
      }
    }

    /** `handleGrade(grade)`: grade the current card, if there is one.
        `shownAt` is the time the study pool was last computed. */
    method HandleGrade(grade: string, shownAt: int, t: int, answerOk: bool, knownOk: bool)
      modifies this`deck, this`progress, this`requests
      ensures var card := CurrentCard(dueOnly, old(deck), newLimit, shownAt);
        Study(deck, progress, requests) ==
          if card.None? then Study(old(deck), old(progress), old(requests))
          else AfterReview(Study(old(deck), old(progress), old(requests)), card.value, grade, IsCorrect(grade), t, answerOk, knownOk)
    {
      var card := CurrentCard(dueOnly, deck, newLimit, shownAt);
      if card.None? {
        return;
      }
      Review(card.value, grade, IsCorrect(grade), t, answerOk, knownOk);
    }

    /** `handleQuizAnswer(choice)`: once per question, grade the current card
        "good" if the choice is its answer and "again" otherwise. */
    method HandleQuizAnswer(choice: string, en2vi: bool, shownAt: int, t: int, answerOk: bool, knownOk: bool)
      modifies this`deck, this`progress, this`requests, this`isAnswered, this`selectedChoice
      ensures var card := CurrentCard(dueOnly, old(deck), newLimit, shownAt);
        card.None? || old(isAnswered) ==>
          && deck == old(deck) && progress == old(progress) && requests == old(requests)
          && isAnswered == old(isAnswered) && selectedChoice == old(selectedChoice)
      ensures var card := CurrentCard(dueOnly, old(deck), newLimit, shownAt);
        card.Some? && !old(isAnswered) ==>
          var ok := choice == QuizAnswerOf(card.value, en2vi);
          && Study(deck, progress, requests)
               == AfterReview(Study(old(deck), old(progress), old(requests)), card.value,
                              QuizGrade(ok), ok, t, answerOk, knownOk)
          && isAnswered && selectedChoice == Some(choice)
    {
      var card := CurrentCard(dueOnly, deck, newLimit, shownAt);
      if card.Some? && !isAnswered {
        AnswerCard(card.value, choice, en2vi, t, answerOk, knownOk);
      }
    }

    /** The quiz answer `choice` for `card`: the choice is recorded, and the
        card is reviewed "good" when it is the card's answer, "again" otherwise. */
    method AnswerCard(card: Card, choice: string, en2vi: bool, t: int, answerOk: bool, knownOk: bool)
      modifies this`deck, this`progress, this`requests, this`isAnswered, this`selectedChoice
      ensures var ok := choice == QuizAnswerOf(card, en2vi);
        && Study(deck, progress, requests)
             == AfterReview(Study(old(deck), old(progress), old(requests)), card, QuizGrade(ok), ok, t, answerOk, knownOk)
        && isAnswered && selectedChoice == Some(choice)
    {
      selectedChoice := Some(choice);
      isAnswered := true;
      var ok := choice == QuizAnswerOf(card, en2vi);
      Review(card, QuizGrade(ok), ok, t, answerOk, knownOk);
    }

    /** `resetProgress()`: after confirmation, the stored progress is cleared
        and every card goes back to the default scheduling state. */
    method ResetProgress(confirmed: bool, t: int)
      modifies this`deck, this`progress
      ensures !confirmed ==> deck == old(deck) && progress == old(progress)
      ensures confirmed ==> progress == map[] && deck == ResetDeck(old(deck), t)
    {
      if !confirmed {
        return;
      }
      ClearAllProgress();
      deck := ResetDeck(deck, t);
    }
  }
}
