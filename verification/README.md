# Spaced-repetition study core of the English learning front end

This project is a Dafny model of the study core of a React front end for learning English vocabulary and grammar. It models these parts:

- **The scheduler.** `schedule(card, grade)` is an SM-2 variant with four grades: "again", "hard", "good" and "easy". The vocabulary page and the grammar page each have a copy; the two copies are modelled separately and proved to compute the same function.
- **The merge engines.** They rebuild the deck from a server response. The server's fields always win. The local progress store supplies only `srs`, `createdAt` and, for vocabulary, cached examples.
- **The local progress store.** For vocabulary, this is a map from card id to entry under one key. For grammar, it is a whole deck under a per-user key.
- **The vocabulary selection policy.** It covers the due set, the new set, the learning pool with its new-card budget and its fallback to the whole deck, and the earliest-due current card.
- **Quiz choices.** `shuffle` and `sampleN` build the quiz's answer choices.
- **The best-effort backend sync after a review.** It sends one answer request, then a "known" promotion. For vocabulary, the promotion needs `reps >= 3` and a correct answer. For grammar, it needs the stored topic to be mastered. Only all-digit server ids are synced.
- **The grammar page's load.** It is guarded by a "latest request wins" token.
- **The grammar review panel and the progress counts.**
- **`buildQuery` and `getMyRole`** from `api.js`.
- **The registration form's password checks.**

Time enters every operation as a parameter `t`, in milliseconds. Ease is kept in hundredths: 250 is 2.5 and the floor 130 is 1.3. `Math.round(x / 100)` is written out as `RoundHundredths`. Network outcomes are parameters: a load outcome, and whether the answer or known request succeeded. Randomness is also a parameter: the draw at each step of a shuffle. Sent requests are recorded in a `requests` field.

Layout:

- `base.dfy`: JavaScript `||` defaults, `filter`, and the server-id test.
- `scheduler.dfy`: the scheduling function and its properties.
- `vocabulary.dfy` and `vocabulary_page.dfy`: the vocabulary deck, the merge, and the page class.
- `selection.dfy`: the study pool.
- `sampling.dfy`: shuffle and quiz choices.
- `grammar.dfy` and `grammar_page.dfy`: the grammar deck, merge, mastery, review list and stats, and the page and review-panel classes.
- `api.dfy`: `String.prototype.trim`, the `URLSearchParams.set` semantics of section 6.2 of the WHATWG URL Standard, `buildQuery`, and the JWT role.
- `register.dfy`: the registration form.

## Behaviour worth knowing

These behaviours follow from the code as written, and the model keeps them.

- **A card can appear twice in the learning pool.** The pool is the due cards followed by the first new cards (`src/pages/VocabularyPage.jsx:324-329`), with no check for cards already taken. A never-reviewed card is both due and new, so it is pooled twice. `Selection.LearningPoolRepeatsDueNewCard` shows a one-card deck giving the pool `[c, c]`.
- **Grammar promotion depends on mastery alone.** After a quiz answer the code aligns the server's "known" flag with the mastery rule (the comment at `src/pages/GrammarPage.jsx:553`). It checks only the stored topic's mastery, not whether the answer was right (`src/pages/GrammarPage.jsx:554-562`). A topic the server already marks known is therefore sent as known again after a wrong answer. `GrammarStudy.QuizSyncGate` proves this. It also proves that a wrong answer never promotes a topic that is not already known, because "again" resets `reps` and `interval`.
- **Load tokens are not assumed unique.** The token is `Date.now()` (`src/pages/GrammarPage.jsx:259`). Loads are debounced by 250 ms and each new one cancels the pending timer (`src/pages/GrammarPage.jsx:256-258`, `295-297`), so in normal use tokens differ; two would be equal only if the clock stalled or stepped back. The model takes the token as a parameter and does not rely on it being unique: a load whose token equals the latest one counts as current.
- **A load checks the selection it captured.** The load effect closes the open topic when the topic selected as the effect ran is missing from the response (`src/pages/GrammarPage.jsx:282-285`; the effect depends only on the filters and the key). If the user opens another topic while the load is in flight, that newer topic can be closed although it is present, or kept although it is missing. `GrammarStudy.GrammarPage.FinishLoad` takes the captured selection as a parameter and states both outcomes.
- **A filtered load overwrites the whole stored deck.** The load fetches with the level and search filters (`src/pages/GrammarPage.jsx:266-270`) and then writes the merge over the stored deck (`src/pages/GrammarPage.jsx:279`). Choosing a level or typing a search therefore drops the stored progress of every topic outside the filter. `GrammarStudy.GrammarPage.FinishLoad` states that the store under the key becomes the merge, and `Grammar.MergeDropsUnlisted` proves that a stored topic the server did not return has no topic in the merge.
- **Reloading keeps progress unless the first merge happened at time 0.** `createdAt: local.createdAt || base.createdAt` treats a stored 0 as absent. See `Grammar.ReloadIsStable`.

## Model

| member | source | states |
|---|---|---|
| Base.IsServerId | src/pages/VocabularyPage.jsx:109 | an id is a server id exactly when it is non-empty and all ASCII digits |
| Scheduler.Default | src/pages/VocabularyPage.jsx:53-59 | the state of a never-reviewed card: 0 reps, ease 2.5, interval 0, 0 lapses, due at `t`; it is well formed |
| Scheduler.Start | src/pages/VocabularyPage.jsx:53-59 | the stored state when there is one, otherwise the default state due at `t` |
| Scheduler.ParseGrade | src/pages/VocabularyPage.jsx:62-86 | a string selects a grade exactly when it is one of the four case labels |
| Scheduler.ParseGradeName | src/pages/VocabularyPage.jsx:62-86 | each grade's label selects that grade |
| Scheduler.RoundHundredths | src/pages/VocabularyPage.jsx:70-84 | `Math.round` of a value in hundredths: the nearest integer, with halves rounded up |
| Scheduler.RoundMonotone | src/pages/VocabularyPage.jsx:70-84 | rounding preserves order |
| Scheduler.Next | src/pages/VocabularyPage.jsx:62-84 | "again" resets reps and interval, adds a lapse and is due in 10 minutes; "hard" keeps at least 1 rep; "good" and "easy" add a rep; every other grade is due `interval` days ahead; "good" keeps the ease |
| Scheduler.Apply | src/pages/VocabularyPage.jsx:62-87 | a recognised grade applies `Next`; any other string leaves the state unchanged |
| Scheduler.IsCorrect | src/pages/VocabularyPage.jsx:359 | a grade counts as correct exactly when it is "good" or "easy" |
| Scheduler.QuizGrade | src/pages/VocabularyPage.jsx:458 | a quiz answer is graded "good" when right and "again" when wrong, and counts as correct exactly when right |
| Scheduler.EaseFloor | src/pages/VocabularyPage.jsx:64-84 | ease never drops below 1.3; it stays exactly 1.3 under "again"/"hard" once at the floor; "easy" adds 0.15 |
| Scheduler.IntervalGrows | src/pages/VocabularyPage.jsx:70-84 | every grade but "again" schedules at least one day ahead and never shortens the interval |
| Scheduler.DueNotInPast | src/pages/VocabularyPage.jsx:62-84 | a reviewed card is never due before the review time |
| Scheduler.ValidPreserved | src/pages/VocabularyPage.jsx:62-84 | every grade keeps a well-formed state (reps, interval, lapses non-negative, ease at least 1.3) well formed |
| Scheduler.BetterGradeLaterDue | src/pages/VocabularyPage.jsx:62-84 | a better grade never schedules earlier: again < hard <= good <= easy in due time, hard <= good <= easy in interval |
| Scheduler.LapsesNeverDecrease | src/pages/VocabularyPage.jsx:62-87 | no grade lowers the lapse count, and exactly "again" adds one |
| Scheduler.FreshCardScenario | src/pages/VocabularyPage.jsx:62-79 | a fresh card graded good, good, again: intervals 1 and 3 days, then ease 2.3, a lapse and a 10-minute re-queue |
| Scheduler.EasyScenario | src/pages/VocabularyPage.jsx:80-84 | reps 2, interval 3, ease 2.5 graded "easy" gives ease 2.65, interval 8, reps 3 |
| Vocabulary.MapServerToCard | src/pages/VocabularyPage.jsx:111-138 | the server's id, flags and counts, a default state due now, a level that is never empty, at most one example |
| Vocabulary.Merge | src/pages/VocabularyPage.jsx:140-157 | one card per server item, in order; server-owned fields always from the server; `srs`, `createdAt` and non-empty examples from the stored entry when present, defaults otherwise |
| Vocabulary.Spread | src/pages/VocabularyPage.jsx:38-43 | `{ ...old, ...patch }`: each field present in the patch overwrites, the others are kept |
| Vocabulary.Saved | src/pages/VocabularyPage.jsx:38-43 | saving progress changes only the entry under that id, which becomes the old entry spread with the patch |
| Vocabulary.UpdateCard | src/pages/VocabularyPage.jsx:340-348 | the cards with that id get the patch; every other card, the length and the order are unchanged |
| Vocabulary.ResetDeck | src/pages/VocabularyPage.jsx:396-401 | every card gets the default state due now, with every other field unchanged |
| Vocabulary.Schedule | src/pages/VocabularyPage.jsx:52-88 | the imperative switch over local variables computes `Apply` on the card's state or the default state |
| Vocabulary.GradeSurvivesReload | src/pages/VocabularyPage.jsx:140-157 | after a grade is saved, the next merge of the same server list keeps the graded state rather than a fresh default |
| Vocabulary.MergeAfterClear | src/pages/VocabularyPage.jsx:393-403 | after the progress store is cleared, a merge gives every server card its default state |
| Selection.DueCards | src/pages/VocabularyPage.jsx:315-318 | exactly the cards of the deck due at `now`, where a card without a state counts as due at 0 |
| Selection.NewCards | src/pages/VocabularyPage.jsx:319-322 | exactly the cards of the deck with no reps |
| Selection.LearningPool | src/pages/VocabularyPage.jsx:324-329 | the pool holds only deck cards and every due card, and it is empty exactly when the deck is; unless it falls back to the whole deck, it is all the due cards followed by the first `min(max(0, N - due), new)` new cards; otherwise it is the deck |
| Selection.LearningPoolAllNew | src/pages/VocabularyPage.jsx:324-329 | with nothing due and at least N new cards, the pool is exactly the first N new cards |
| Selection.LearningPoolNoTopUp | src/pages/VocabularyPage.jsx:324-329 | when the due cards fill the budget, no new card is added |
| Selection.LearningPoolFallback | src/pages/VocabularyPage.jsx:324-329 | with nothing due and no new card to add, the pool falls back to the whole deck |
| Selection.LearningPoolDueOrNew | src/pages/VocabularyPage.jsx:324-329 | unless the pool falls back, every pooled card is due or new |
| Selection.LearningPoolRepeatsDueNewCard | src/pages/VocabularyPage.jsx:324-329 | a never-reviewed card is both due and new, so the pool holds it twice |
| Selection.EarliestIndex | src/pages/VocabularyPage.jsx:331-338 | the index of an earliest-due card, the first in list order among ties |
| Selection.CurrentCard | src/pages/VocabularyPage.jsx:331-338 | no card exactly when the deck is empty; otherwise a deck card taken from the list in use (the pool in due-only mode, the deck otherwise) and due no later than any card of that list |
| Selection.CurrentCardIsFirstEarliest | src/pages/VocabularyPage.jsx:331-338 | ties go to list order: every card before the current one in the list in use is due strictly later |
| Sampling.OtherCards | src/pages/VocabularyPage.jsx:99-104 | exactly the cards whose id is not the excluded one |
| Sampling.Shuffle | src/pages/VocabularyPage.jsx:90-97 | the Fisher-Yates pass returns a permutation of its input |
| Sampling.SampleN | src/pages/VocabularyPage.jsx:99-104 | `min(n, others)` cards, drawn without replacement from the cards other than the excluded one |
| Sampling.QuizChoices | src/pages/VocabularyPage.jsx:437-447 | the right answer is always among the choices, and there are `1 + min(3, others)` of them |
| VocabularyStudy.Sync | src/pages/VocabularyPage.jsx:359-368 | no request for a local id; for a server id, the answer first; a known promotion exactly when the answer succeeded, the grade is correct and reps reach 3; marked known locally exactly then (and only if the promotion succeeded) |
| VocabularyStudy.ReviewTouchesOnlyCard | src/pages/VocabularyPage.jsx:350-369 | a review changes only the reviewed card and its progress entry; it is marked known only after a correct review reaching 3 reps; earlier requests are kept |
| VocabularyStudy.VocabularyPage.constructor | src/pages/VocabularyPage.jsx:191-209 | the initial page state: empty deck, the stored progress, loading, due-only with a budget of 20 |
| VocabularyStudy.VocabularyPage.SaveProgress | src/pages/VocabularyPage.jsx:38-43 | the stored map becomes `Saved(old map, id, patch)` |
| VocabularyStudy.VocabularyPage.ClearAllProgress | src/pages/VocabularyPage.jsx:45-47 | the stored map is removed |
| VocabularyStudy.VocabularyPage.Load | src/pages/VocabularyPage.jsx:280-308 | a response becomes the merge with the stored progress (a non-array reads as empty); an error empties the deck and shows its message or the default one; loading ends |
| VocabularyStudy.VocabularyPage.Review | src/pages/VocabularyPage.jsx:354-368 | the deck, the progress map and the sent requests become `AfterReview` of the old ones |
| VocabularyStudy.VocabularyPage.HandleGrade | src/pages/VocabularyPage.jsx:350-369 | without a current card nothing changes; otherwise the current card is reviewed with the grade |
| VocabularyStudy.VocabularyPage.HandleQuizAnswer | src/pages/VocabularyPage.jsx:449-479 | once per question, the current card is reviewed "good" when the choice is its answer and "again" otherwise, and the choice is recorded; an answered question or a missing card changes nothing |
| VocabularyStudy.VocabularyPage.AnswerCard | src/pages/VocabularyPage.jsx:451-468 | the choice is recorded, and the card is reviewed "good" when the choice is its answer and "again" otherwise |
| VocabularyStudy.VocabularyPage.ResetProgress | src/pages/VocabularyPage.jsx:393-403 | after confirmation, the store is cleared and every card gets the default state; otherwise nothing changes |
| Grammar.MapServerToCard | src/pages/GrammarPage.jsx:83-115 | the server's id, quiz, flags and counts, a default state due now, a level that is never empty; the review date is dropped exactly when it is missing or empty, and kept otherwise |
| Grammar.MergeDropsUnlisted | src/pages/GrammarPage.jsx:266-280 | a stored topic whose id the server did not return has no topic in the merge that the load shows and stores |
| Grammar.LastWithId | src/pages/GrammarPage.jsx:118-122 | the `Map` built from the local deck finds the last local topic with that id, and none exactly when there is no such topic |
| Grammar.MergeCard | src/pages/GrammarPage.jsx:121-130 | one merged topic: the server's topic, with `srs` and `createdAt` from the last stored topic with its id when that has them set (a 0 `createdAt` counts as unset) |
| Grammar.Merge | src/pages/GrammarPage.jsx:117-131 | one topic per server topic, in order; all but `srs` and `createdAt` from the server; those from the stored topic when set (a 0 `createdAt` counts as unset); every merged topic has both |
| Grammar.ReloadIsStable | src/pages/GrammarPage.jsx:117-131 | merging the same server list into a merge result changes nothing, so a reload never resets progress |
| Grammar.ReloadKeepsCard | src/pages/GrammarPage.jsx:117-131 | each topic of a second merge equals the same topic of the first |
| Grammar.SuccessKeepsMastered | src/pages/GrammarPage.jsx:154-162 | a mastered topic stays mastered after "good" or "easy" |
| Grammar.AgainUnmasters | src/pages/GrammarPage.jsx:154-162 | after "again", a topic is mastered exactly when the server marked it known; a known topic stays mastered after any grade |
| Grammar.FreshTopicMastery | src/pages/GrammarPage.jsx:154-162 | a fresh topic is not mastered after two "good" reviews, and is mastered by its 8-day interval after the third |
| Grammar.Schedule | src/pages/GrammarPage.jsx:22-58 | the grammar page's copy of the switch computes the same `Apply` as the vocabulary page's |
| Grammar.UpdateDeck | src/pages/GrammarPage.jsx:210-220 | the topics with that id are rescheduled by the grade with nothing else changed; every other topic, the length and the order are unchanged |
| Grammar.FindById | src/pages/GrammarPage.jsx:177-180 | the first topic with that id, and none exactly when there is no such topic |
| Grammar.FindAfterUpdate | src/pages/GrammarPage.jsx:554-559 | after an update, the topic found under the id is the one found before, rescheduled |
| Grammar.ReviewList | src/pages/GrammarPage.jsx:617-620 | the first `min(5, due)` topics, in deck order, without a state or due by now |
| Grammar.RemoveId | src/pages/GrammarPage.jsx:624 | exactly the listed topics with another id |
| Grammar.GrammarStats | src/pages/GrammarPage.jsx:678-685 | the total, and the counts of learned, due and mastered topics, each at most the total |
| Grammar.ReviewListMatchesStats | src/pages/GrammarPage.jsx:614-685 | from time 0 on, the review list holds `min(5, due count)` topics, the first of the topics the stats count as due |
| Grammar.StorageKeyFor | src/pages/GrammarPage.jsx:236-242 | `grammar_deck_v1_` followed by the user's id, or by `guest` when the user lookup fails |
| Grammar.StorageKeysDistinct | src/pages/GrammarPage.jsx:236-242 | two users with numeric ids share a key exactly when their ids are equal, and no numeric id shares the guest key |
| GrammarStudy.StoredDeck | src/pages/GrammarPage.jsx:61-71 | the deck stored under the key, or the empty deck when there is none |
| GrammarStudy.QuizSync | src/pages/GrammarPage.jsx:549-565 | no request for a local id; for a server id, the answer first, then a known promotion exactly when the answer succeeded and the stored topic is mastered |
| GrammarStudy.QuizSyncGate | src/pages/GrammarPage.jsx:539-566 | a wrong answer never promotes a topic that is not known; a known topic is always re-promoted; a right answer on a mastered topic promotes it |
| GrammarStudy.KeptSelection | src/pages/GrammarPage.jsx:282-285 | the open topic stays open exactly when it is unset, empty or still in the deck, and is closed otherwise |
| GrammarStudy.GrammarPage.constructor | src/pages/GrammarPage.jsx:172-193 | the initial page state: no key, empty deck, nothing selected, quiz hidden, loading, token 0 |
| GrammarStudy.GrammarPage.Selected | src/pages/GrammarPage.jsx:177-180 | the shown topic is in the deck and carries the selected id |
| GrammarStudy.GrammarPage.ResolveStorageKey | src/pages/GrammarPage.jsx:229-250 | the key for the looked-up user (or the guest key) is set, and the deck stored under it is shown |
| GrammarStudy.GrammarPage.ResetQuiz | src/pages/GrammarPage.jsx:204-208 | the quiz is hidden, with no answer and no verdict |
| GrammarStudy.GrammarPage.Select | src/pages/GrammarPage.jsx:387-390 | the topic becomes the open one, and the quiz is reset |
| GrammarStudy.GrammarPage.UpdateCard | src/pages/GrammarPage.jsx:210-220 | the deck becomes `UpdateDeck` of the old deck, and is written under the key once the key is known |
| GrammarStudy.GrammarPage.BeginLoad | src/pages/GrammarPage.jsx:253-263 | before the key is known nothing happens; otherwise the token becomes the latest, loading starts and the error clears |
| GrammarStudy.GrammarPage.FinishLoad | src/pages/GrammarPage.jsx:265-292 | a stale response changes nothing. The current one either shows and stores the merge with the stored deck, or empties the deck and shows the error, leaving the store, the open topic and its quiz as they were. After a merge, the open topic and its quiz are cleared exactly when the topic selected as the load began is set and missing; when that is still the open topic, it stays open exactly when it is in the new deck. Loading ends |
| GrammarStudy.GrammarPage.ShowLoaded | src/pages/GrammarPage.jsx:275-285 | the merge with the stored deck is shown and written under the key; when the topic captured as the load began is set and missing, the open topic is closed with its quiz reset, otherwise the selection and quiz are untouched |
| GrammarStudy.GrammarPage.QuizAnswer | src/pages/GrammarPage.jsx:539-566 | once per question, records the answer and verdict, reschedules the topic "good" or "again", stores the deck and sends `QuizSync` of the stored topic |
| GrammarStudy.GrammarPage.SendQuizSync | src/pages/GrammarPage.jsx:550-565 | the requests sent are `QuizSync` of the topic read back from the store (none before the key is known) |
| GrammarStudy.ReviewPanel.constructor | src/pages/GrammarPage.jsx:615 | the panel starts with no topics |
| GrammarStudy.ReviewPanel.Refresh | src/pages/GrammarPage.jsx:617-620 | the panel lists `ReviewList` of the new deck |
| GrammarStudy.ReviewPanel.Grade | src/pages/GrammarPage.jsx:614-625 | the page reschedules the topic and stores the deck; the panel's list, after its effect re-runs on the new deck, is the review list of that deck at `now` |
| Grammar.GradedTopicLeavesReviewList | src/pages/GrammarPage.jsx:617-625 | for less than ten minutes after a review with any of the four grades, the reviewed topic is not on the review list |
| Api.TrimStart | src/api.js:118 | removes exactly the leading white space: what is removed is all white space, and what is left does not start with it |
| Api.TrimEnd | src/api.js:118 | removes exactly the trailing white space: what is removed is all white space, and what is left does not end with it |
| Api.Trim | src/api.js:118 | the result is the input minus a white-space prefix and suffix, and neither starts nor ends with white space |
| Api.TrimEmpty | src/api.js:118-119 | trimming gives the empty string exactly when the value is all white space |
| Api.TrimIdempotent | src/api.js:118 | trimming a trimmed value changes nothing |
| Api.WithoutKey | src/api.js:120 | exactly the pairs with another name |
| Api.Lookup | src/api.js:120 | no value exactly when no pair has the name; otherwise a pair with that name holds the value |
| Api.SetFirst | src/api.js:120 | the result holds only pairs of the list and the new pair |
| Api.SetParam | src/api.js:120 | `set` adds no pair other than the new one |
| Api.LookupWithoutKey | src/api.js:120 | removing one name leaves every other name's value unchanged |
| Api.LookupSetFirst | src/api.js:120 | replacing the first pair gives the name the new value and leaves the other names unchanged |
| Api.LookupAppend | src/api.js:120 | appending a pair changes only a name that was absent |
| Api.LookupSetParam | src/api.js:120 | after `set(k, v)`, `k` reads `v` and every other name reads as before |
| Api.WithoutKeyUnique | src/api.js:120 | removing a name keeps names unique and leaves no pair with that name |
| Api.SetFirstUnique | src/api.js:120 | replacing the first pair keeps names unique |
| Api.SetParamUnique | src/api.js:120 | `set` keeps names unique |
| Api.Surviving | src/api.js:115-121 | every kept value is non-empty and trimmed |
| Api.SurvivingLookup | src/api.js:115-121 | each name reads the trimmed value of its last entry that is neither absent nor blank, and is absent when it has no such entry |
| Api.SurvivingUnique | src/api.js:115-121 | each name appears at most once |
| Api.Serialize | src/api.js:122 | the serialization is empty exactly when there are no pairs |
| Api.BuildQuery | src/api.js:114-124 | the loop builds the surviving pairs; the result is the empty string when none survive, and otherwise "?" followed by their serialization |
| Api.Split | src/api.js:98 | `split` gives at least one part, and no part holds the separator |
| Api.SplitJoin | src/api.js:98-99 | joining the parts gives back the token, and there is one more part than there are separators |
| Api.FromBase64Url | src/api.js:101 | each `-` becomes `+` and each `_` becomes `/`, with the length unchanged |
| Api.JwtPayload | src/api.js:95-106 | no payload without a token or without exactly three parts; otherwise the decoded middle part |
| Api.ToUpper | src/api.js:111 | upper-cases each character |
| Api.MyRole | src/api.js:108-112 | the payload's non-empty role upper-cased, "USER" otherwise; never any lower-case letter |
| Api.NoTokenIsUser | src/api.js:108-112 | without a three-part token the role is "USER", whatever the decoder does |
| Api.RoleIsUpper | src/api.js:108-112 | upper-casing the role again changes nothing |
| Register.Validate | src/pages/RegisterPage.jsx:21-28 | the form may be submitted exactly when the password has at least 6 characters and equals the confirmation; the length message takes precedence |
| Register.RegisterPage.constructor | src/pages/RegisterPage.jsx:9-14 | empty fields and messages, not loading, nothing sent |
| Register.RegisterPage.HandleRegister | src/pages/RegisterPage.jsx:16-46 | both messages clear; a failing check shows its message and sends nothing; otherwise one request with the email and password, then the success message or the failure's message (or the default one); loading ends |

## Left out

- Floating point: ease is an exact integer number of hundredths, and products are rounded exactly. The code computes with binary floating point, where `ease - 0.2` and `interval * ease` can carry a tiny error. That error can tip a product that lies exactly half-way between two days to the other side of `Math.round`; this is not modelled.
- The clock: each operation reads one time `t`, although the code calls `now()` several times within one handler.
- Malformed stored data: a stored value is either absent or well formed. The `try`/`JSON.parse` fallbacks are modelled as absence. A stored `srs` with the wrong shape is not modelled.
- `readProgressMap`/`writeProgressMap` and `readDeckByKey`/`writeDeckByKey` (`src/pages/VocabularyPage.jsx:22-36`, `src/pages/GrammarPage.jsx:61-75`): the store is a map field, and a write followed by a read gives back what was written by construction.
- `String(id)`: ids are strings throughout, so `String(a) === String(b)` is string equality.
- JavaScript lengths: lengths count characters, not UTF-16 code units. `password.length` differs only for characters outside the Basic Multilingual Plane.
- Api.ToUpper: upper-cases ASCII letters only, not the full Unicode case mapping of `toUpperCase`.
- Api.JwtPayload: `atob` and `JSON.parse` are a decoder parameter that may fail, not a base64 and JSON decoder.
- Api.Serialize: joins `name=value` pairs with `&`, without the `application/x-www-form-urlencoded` percent-encoding.
- Api.BuildQuery: `Object.entries` order is the order of the given list; non-string values are given already converted by `String(v)`.
- Network and concurrency: requests are recorded in a `requests` field, and their outcomes are parameters. React's batched state updates, the debounce timers and the `setTimeout` quiz reset after a right answer are left out.
- Async ordering: each handler is modelled as running to completion. In `QuizAnswer` the deck is taken as already written before the stored topic is read back. The `setDeck` updater that writes the store runs during the re-render, and React flushes that re-render before the awaited `apiAnswer` resolves.
- Authentication: the redirect to the login page when there is no token, the `getToken` storage, and the navigation after registration are left out.
- Other page features: `toggleKnown` and `toggleFavorite`, show-answer, speech, the topic list, keyboard shortcuts, and the inline `URLSearchParams` query paths of the two pages are left out. The query paths follow the same `set` semantics as `buildQuery`.
- Quiz-choice effect: the effect that clears `selectedChoice` and `isAnswered` on a new question is left out.
- Grammar content: rules, forms, mistakes and examples are kept as given. The code's `Array.isArray` checks are modelled as `None` for a non-array.
- GrammarStudy.GrammarPage.ResolveStorageKey: the user id is taken as present whenever the lookup succeeds. A successful lookup without an `id` would give the key `grammar_deck_v1_undefined`.
- GrammarStudy.GrammarPage.Selected: a `null` selected id is `None`. The code's `String(null)` comparison would only match a topic whose id is the string "null".
- GrammarStudy.GrammarPage.FinishLoad: requires the storage key to be set, as the effect does not run before it is.
