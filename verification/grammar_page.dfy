/** The grammar study page's state and the handlers that change it: the
    per-user storage key, grading a topic, loading with the "latest request
    wins" token, answering a topic's quiz with the mastery-gated sync, and
    the review panel's list of topics to review today. */
module GrammarStudy {
  import opened Base
  import opened Scheduler
  import opened Grammar

  /** The sync requests the page sends to the backend. */
  datatype Request = Answer(id: string, correct: bool) | SetKnown(id: string, known: bool)

  /** What a content load ends with. */
  datatype LoadOutcome =
    | Loaded(items: Option<seq<ServerGrammar>>)  // None: the response was not an array
    | Failed(message: Option<string>)

  const LoadErrorMessage: string := "Không thể tải ngữ pháp từ backend (Spring Boot)"

  /** `readDeckByKey(key) || []`: a missing (or unparsable) deck reads as empty. */
  function StoredDeck(storage: map<string, seq<Card>>, key: string): (r: seq<Card>)
    ensures key in storage ==> r == storage[key]
    ensures key !in storage ==> r == []
  {
    if key in storage then storage[key] else []
  }

  /** The sync after a quiz answer: the answer is reported, and when that
      succeeds the topic is marked known on the server if the stored deck
      shows it mastered. Only server ids are synced. */
  function QuizSync(id: string, correct: bool, stored: Option<Card>, answerOk: bool): (r: seq<Request>)
    ensures !IsServerId(id) ==> r == []
    ensures IsServerId(id) ==> 1 <= |r| <= 2 && r[0] == Answer(id, correct)
    ensures SetKnown(id, true) in r <==> IsServerId(id) && answerOk && IsMastered(stored)
    ensures forall q :: q in r ==> q.id == id && (q.SetKnown? ==> q.known)
  {
    if !IsServerId(id) then []
    else if !answerOk then [Answer(id, correct)]
    else if IsMastered(stored) then [Answer(id, correct), SetKnown(id, true)]
    else [Answer(id, correct)]
  }

  /** The mastery check after a quiz answer sees the topic already
      rescheduled: a wrong answer never marks an unknown topic known, a
      known topic is always re-marked known, and a right answer on a
      mastered topic keeps it marked. */
  lemma {:induction false} QuizSyncGate(card: Card, correct: bool, t: int, answerOk: bool)
    requires card.srs.Some? ==> Valid(card.srs.value)
    ensures var r := QuizSync(card.id, correct, Some(Rescheduled(card, QuizGrade(correct), t)), answerOk);
      && (!correct && !card.known ==> SetKnown(card.id, true) !in r)
      && (card.known && IsServerId(card.id) && answerOk ==> SetKnown(card.id, true) in r)
      && (correct && IsMastered(Some(card)) && IsServerId(card.id) && answerOk ==> SetKnown(card.id, true) in r)
  {
    AgainUnmasters(card, QuizGrade(correct), t);
    if correct && IsMastered(Some(card)) {
      SuccessKeepsMastered(card, Good, t);
    }
  }

  /** The open topic after a load: kept when the new deck still holds it
      (or when nothing is open), closed otherwise. */
  function KeptSelection(selected: Option<string>, deck: seq<Card>): (r: Option<string>)
    ensures r == selected || r == None
    ensures r.Some? && r.value != "" ==> exists j :: 0 <= j < |deck| && deck[j].id == r.value
    ensures r != selected <==> selected.Some? && selected.value != "" && forall j :: 0 <= j < |deck| ==> deck[j].id != selected.value
  {
    if selected.Some? && selected.value != "" && FindById(deck, selected.value).None? then None else selected
  }

  class GrammarPage {
    /** The browser's local store of decks, by key. */
    var storage: map<string, seq<Card>>
    /** The per-user key; `None` until the user lookup has finished. */
    var storageKey: Option<string>
    var deck: seq<Card>
    var selectedId: Option<string>
    var showQuiz: bool
    var selectedAnswer: Option<int>
    var isCorrect: Option<bool>
    var loading: bool
    var error: string
    /** `latestRequestRef.current`: the token of the latest load issued. */
    var latestRequest: int
    /** Every sync request sent so far, in order. */
    var requests: seq<Request>

    constructor (stored: map<string, seq<Card>>)
      ensures storage == stored && storageKey == None && deck == [] && selectedId == None
      ensures !showQuiz && selectedAnswer == None && isCorrect == None
      ensures loading && error == "" && latestRequest == 0 && requests == []
    {
      storage := stored;
      storageKey := None;
      deck := [];
      selectedId := None;
      showQuiz := false;
      selectedAnswer := None;
      isCorrect := None;
      loading := true;
      error := "";
      latestRequest := 0;
      requests := [];
    }

    /** The topic shown: the first one whose id is `selectedId`. */
    function Selected(): (r: Option<Card>)
      reads this
      ensures r.Some? ==> r.value in deck && selectedId == Some(r.value.id)
    {
      if selectedId.None? then None else FindById(deck, selectedId.value)
    }

    /** The user lookup that picks the storage key (`me` is the signed-in
        user's id, `None` when the lookup fails), then shows the stored deck. */
    method ResolveStorageKey(me: Option<string>)
      modifies this`storageKey, this`deck
      ensures storageKey == Some(StorageKeyFor(me))
      ensures deck == StoredDeck(storage, StorageKeyFor(me))
    {
      var key := StorageKeyFor(me);
      storageKey := Some(key);
      deck := StoredDeck(storage, key);
    }

    method ResetQuiz()
      modifies this`showQuiz, this`selectedAnswer, this`isCorrect
      ensures !showQuiz && selectedAnswer == None && isCorrect == None
    {
      showQuiz := false;
      selectedAnswer := None;
      isCorrect := None;
    }

    /** Opening a topic from the list. */
    method Select(id: string)
      modifies this`selectedId, this`showQuiz, this`selectedAnswer, this`isCorrect
      ensures selectedId == Some(id) && !showQuiz && selectedAnswer == None && isCorrect == None
    {
      selectedId := Some(id);
      ResetQuiz();
    }

    /** `updateCard(cardId, grade)`: every topic with that id is rescheduled,
        and once the storage key is known the new deck is written under it. */
    method UpdateCard(cardId: string, grade: string, t: int)
      modifies this`deck, this`storage
      ensures deck == UpdateDeck(old(deck), cardId, grade, t)
      ensures storage == if storageKey.Some? then old(storage)[storageKey.value := deck] else old(storage)
    {
      var prev := deck;
      var updated: seq<Card> := [];
      var i := 0;
      while i < |prev|
        invariant 0 <= i <= |prev| && |updated| == i && storage == old(storage)
        invariant forall k :: 0 <= k < i ==>
          updated[k] == if prev[k].id == cardId then Rescheduled(prev[k], grade, t) else prev[k]
      {
        var card := prev[i];
        if card.id == cardId {
          var srs := Schedule(card, grade, t);
          updated := updated + [card.(srs := Some(srs))];
        } else {
          updated := updated + [card];
        }
        i := i + 1;
      }
      assert updated == UpdateDeck(prev, cardId, grade, t);
      deck := updated;
      if storageKey.Some? {
        storage := storage[storageKey.value := updated];
      }
    }

    /** The start of a load: its token becomes the latest one. Nothing is
        loaded before the storage key is known. */
    method BeginLoad(requestId: int)
      modifies this`latestRequest, this`loading, this`error
      ensures storageKey.None? ==> latestRequest == old(latestRequest) && loading == old(loading) && error == old(error)
      ensures storageKey.Some? ==> latestRequest == requestId && loading && error == ""
    {
      if storageKey.None? {
        return;
      }
      latestRequest := requestId;
      loading := true;
      error := "";
    }

    /** The end of the load with token `requestId`. A stale load (a later one
        was issued since) changes nothing. The current one either shows the
        server topics merged with the stored deck, writes that deck back and
        closes the open topic if the one `captured` is gone, or shows the
        error and an empty deck; either way loading ends.

        `captured` is the `selectedId` the load's effect saw when it ran; the
        user may have opened another topic since, and it is that other topic
        the check then closes or keeps. */
    method FinishLoad(requestId: int, captured: Option<string>, outcome: LoadOutcome, t: int)
      requires storageKey.Some?
      modifies this`deck, this`storage, this`selectedId, this`showQuiz, this`selectedAnswer, this`isCorrect,
               this`error, this`loading
      ensures requestId != old(latestRequest) ==> unchanged(this)
      ensures requestId == old(latestRequest) ==>
        && !loading && latestRequest == old(latestRequest) && storageKey == old(storageKey) && requests == old(requests)
      ensures requestId == old(latestRequest) && outcome.Loaded? ==>
        && deck == Merge(OrList(outcome.items), StoredDeck(old(storage), storageKey.value), t)
        && storage == old(storage)[storageKey.value := deck]
        && error == old(error)
        && (KeptSelection(captured, deck) != captured ==>
              selectedId == None && !showQuiz && selectedAnswer == None && isCorrect == None)
        && (KeptSelection(captured, deck) == captured ==>
              && selectedId == old(selectedId) && showQuiz == old(showQuiz)
              && selectedAnswer == old(selectedAnswer) && isCorrect == old(isCorrect))
        && (captured == old(selectedId) ==> selectedId == KeptSelection(old(selectedId), deck))
      ensures requestId == old(latestRequest) && outcome.Failed? ==>
        && deck == [] && error == OrString(outcome.message, LoadErrorMessage)
        && storage == old(storage) && selectedId == old(selectedId)
        && showQuiz == old(showQuiz) && selectedAnswer == old(selectedAnswer) && isCorrect == old(isCorrect)
    {
      if latestRequest == requestId {
        if outcome.Loaded? {
          ShowLoaded(OrList(outcome.items), captured, t);
        } else {
          error := OrString(outcome.message, LoadErrorMessage);
          deck := [];
        }
        loading := false;
      }
    }

    /** A current load's response: the server topics merged with the stored
        deck are shown and written back; when the topic that was open as the
        load began (`captured`) is gone, whatever topic is open now is closed
        with its quiz. */
    method ShowLoaded(server: seq<ServerGrammar>, captured: Option<string>, t: int)
      requires storageKey.Some?
      modifies this`deck, this`storage, this`selectedId, this`showQuiz, this`selectedAnswer, this`isCorrect
      ensures deck == Merge(server, StoredDeck(old(storage), storageKey.value), t)
      ensures storage == old(storage)[storageKey.value := deck]
      ensures KeptSelection(captured, deck) != captured ==>
        selectedId == None && !showQuiz && selectedAnswer == None && isCorrect == None
      ensures KeptSelection(captured, deck) == captured ==>
        && selectedId == old(selectedId) && showQuiz == old(showQuiz)
        && selectedAnswer == old(selectedAnswer) && isCorrect == old(isCorrect)
    {
      var key := storageKey.value;
      var merged := Merge(server, StoredDeck(storage, key), t);
      deck := merged;
      storage := storage[key := merged];
      if KeptSelection(captured, merged) != captured {
        selectedId := None;
        ResetQuiz();
      }
    }

    /** Choosing option `i` of the open topic's quiz: once per question, the
        topic is graded "good" if `i` is the right option and "again"
        otherwise, then synced (see `QuizSync`), the mastery check reading
        the deck just written to the store. */
    method QuizAnswer(i: int, t: int, answerOk: bool)
      requires Selected().Some? && Selected().value.quiz.Some?
      modifies this`selectedAnswer, this`isCorrect, this`deck, this`storage, this`requests
      ensures old(selectedAnswer).Some? ==>
        deck == old(deck) && storage == old(storage) && requests == old(requests) && selectedAnswer == old(selectedAnswer) && isCorrect == old(isCorrect)
      ensures old(selectedAnswer).None? ==>
        var card := old(Selected()).value;
        var correct := i == card.quiz.value.correct;
        && selectedAnswer == Some(i) && isCorrect == Some(correct)
        && deck == UpdateDeck(old(deck), card.id, QuizGrade(correct), t)
        && storage == (if storageKey.Some? then old(storage)[storageKey.value := deck] else old(storage))
        && requests == old(requests)
             + QuizSync(card.id, correct, if storageKey.Some? then FindById(deck, card.id) else None, answerOk)
    {
      if selectedAnswer.None? {
        var card := Selected().value;
        var correct := i == card.quiz.value.correct;
        selectedAnswer := Some(i);
        isCorrect := Some(correct);
        UpdateCard(card.id, QuizGrade(correct), t);
        SendQuizSync(card.id, correct, answerOk);
      }
    }

    /** The sync after a quiz answer: report the answer (a failed request
        skips the rest), then read the topic back from the store and mark it
        known when it is mastered. */
    method SendQuizSync(id: string, correct: bool, answerOk: bool)
      modifies this`requests
      ensures requests == old(requests)
        + QuizSync(id, correct, if storageKey.Some? then FindById(StoredDeck(storage, storageKey.value), id) else None, answerOk)
    {
      if IsServerId(id) {
        requests := requests + [Answer(id, correct)];
      }
      if answerOk || !IsServerId(id) {
        var local := if storageKey.Some? then StoredDeck(storage, storageKey.value) else [];
        var localCard := FindById(local, id);
        // apiSetKnown sends nothing for a local id
        if IsMastered(localCard) && IsServerId(id) {
          requests := requests + [SetKnown(id, true)];
        }
      }
    }
  }

  /** `GrammarReviewPanel`: the topics to review today. */
  class ReviewPanel {
    var todayCards: seq<Card>

    constructor ()
      ensures todayCards == []
    {
      todayCards := [];
    }

    /** The panel's effect on a new deck: the first five topics needing review. */
    method Refresh(deck: seq<Card>, now: int)
      modifies this
      ensures todayCards == ReviewList(deck, now)
    {
      var due := Filter(deck, (c: Card) => NeedsReview(c, now));
      todayCards := due[..Min(ReviewListSize, |due|)];
    }

    /** Grading a topic from the panel: the page reschedules it and the
        panel drops that topic; the new deck then re-runs the panel's effect,
        so the list settles on the review list of the new deck at `now`. */
    method Grade(page: GrammarPage, card: Card, grade: string, t: int, now: int)
      modifies this, page`deck, page`storage
      ensures todayCards == ReviewList(page.deck, now)
      ensures page.deck == UpdateDeck(old(page.deck), card.id, grade, t)
      ensures page.storage ==
        if page.storageKey.Some? then old(page.storage)[page.storageKey.value := page.deck] else old(page.storage)
    {
      page.UpdateCard(card.id, grade, t);
      todayCards := RemoveId(todayCards, card.id);
      Refresh(page.deck, now);
    }
  }
}
