/** The SM-2-style scheduler both study pages share: a card's scheduling
    state (`srs`) and the grade a learner gives it determine the next state.

    `ease` is kept in hundredths (2.5 is 250): every constant the pages use
    is a multiple of 0.05, so the arithmetic is exact. Times are integer
    milliseconds; intervals are whole days. */
module Scheduler {
  import opened Base

  const DefaultEase: int := 250
  const MinEase: int := 130
  const MsPerDay: int := 24 * 60 * 60 * 1000
  /** An "again" grade re-queues the card ten minutes later. */
  const AgainDelayMs: int := 10 * 60 * 1000

  datatype Srs = Srs(reps: int, ease: int, interval: int, due: int, lapses: int)

  datatype Grade = Again | Hard | Good | Easy

  /** The state every field of a well-formed `srs` record keeps. */
  predicate Valid(s: Srs)
  {
    s.reps >= 0 && s.ease >= MinEase && s.interval >= 0 && s.lapses >= 0
  }

  /** The state a card gets before its first review, due at `t`. */
  function Default(t: int): (r: Srs)
    ensures Valid(r) && r.reps == 0 && r.interval == 0 && r.lapses == 0
    ensures r.ease == DefaultEase && r.due == t
  {
    Srs(0, DefaultEase, 0, t, 0)
  }

  /** `card.srs || { reps: 0, ease: 2.5, interval: 0, due: now, lapses: 0 }` */
  function Start(srs: Option<Srs>, t: int): (r: Srs)
    ensures srs.Some? ==> r == srs.value
    ensures srs.None? ==> r.reps == 0 && r.ease == DefaultEase && r.interval == 0 && r.lapses == 0 && r.due == t
  {
    if srs.Some? then srs.value else Default(t)
  }

  function GradeName(g: Grade): string
  {
    match g
    case Again => "again"
    case Hard => "hard"
    case Good => "good"
    case Easy => "easy"
  }

  /** The grade a `switch` case label selects; any other string selects none. */
  function ParseGrade(name: string): (r: Option<Grade>)
    ensures r.Some? ==> GradeName(r.value) == name
    ensures r.None? ==> name !in {"again", "hard", "good", "easy"}
  {
    if name == "again" then Some(Again)
    else if name == "hard" then Some(Hard)
    else if name == "good" then Some(Good)
    else if name == "easy" then Some(Easy)
    else None
  }

  lemma ParseGradeName(g: Grade)
    ensures ParseGrade(GradeName(g)) == Some(g)
  {
  }

  /** `Math.round(x / 100)` for an integer `x`: the nearest integer, halves
      rounded up (this is what `Math.round` does for every sign). */
  function RoundHundredths(x: int): (r: int)
    ensures 100 * r - 50 <= x < 100 * r + 50
  {
    (x + 50) / 100
  }

  lemma RoundMonotone(x: int, y: int)
    requires x <= y
    ensures RoundHundredths(x) <= RoundHundredths(y)
  {
  }

  /** The interval after "hard": 1 day for a card never scheduled, otherwise
      120% of the old interval, rounded, and at least one day. */
  function HardInterval(interval: int): int
  {
    if interval != 0 then Max(1, RoundHundredths(interval * 120)) else 1
  }

  /** The interval after "good": the old interval times the ease. */
  function GoodInterval(interval: int, ease: int): int
  {
    if interval == 0 then 1 else Max(1, RoundHundredths(interval * ease))
  }

  /** The interval after "easy", given the already raised ease: the old
      interval times (ease + 0.15), rounded, with no lower bound. */
  function EasyInterval(interval: int, newEase: int): int
  {
    if interval != 0 then RoundHundredths(interval * (newEase + 15)) else 3
  }

  /** The scheduling policy for the four grades. */
  function Next(s: Srs, g: Grade, t: int): (r: Srs)
    ensures r.lapses == s.lapses + (if g == Again then 1 else 0)
    ensures g == Again ==> r.reps == 0 && r.interval == 0 && r.due == t + AgainDelayMs
    ensures g == Hard ==> r.reps >= 1 && r.reps >= s.reps
    ensures g == Good || g == Easy ==> r.reps == s.reps + 1
    ensures g != Again ==> r.due == t + r.interval * MsPerDay
    ensures g == Good ==> r.ease == s.ease
  {
    match g
    case Again =>
      Srs(0, Max(MinEase, s.ease - 20), 0, t + AgainDelayMs, s.lapses + 1)
    case Hard =>
      var interval := HardInterval(s.interval);
      Srs(Max(1, s.reps), Max(MinEase, s.ease - 15), interval, t + interval * MsPerDay, s.lapses)
    case Good =>
      var interval := GoodInterval(s.interval, s.ease);
      Srs(s.reps + 1, s.ease, interval, t + interval * MsPerDay, s.lapses)
    case Easy =>
      var ease := s.ease + 15;
      var interval := EasyInterval(s.interval, ease);
      Srs(s.reps + 1, ease, interval, t + interval * MsPerDay, s.lapses)
  }

  /** `schedule` on an already defaulted state: a grade string outside the
      four leaves the state as it is. */
  function Apply(s: Srs, grade: string, t: int): (r: Srs)
    ensures ParseGrade(grade).None? ==> r == s
    ensures ParseGrade(grade).Some? ==> r == Next(s, ParseGrade(grade).value, t)
  {
    match ParseGrade(grade)
    case None => s
    case Some(g) => Next(s, g, t)
  }

  /** `grade === "good" || grade === "easy"`: the grades reported to the
      server as a correct answer. */
  function IsCorrect(grade: string): (r: bool)
    ensures r <==> ParseGrade(grade) == Some(Good) || ParseGrade(grade) == Some(Easy)
  {
    grade == "good" || grade == "easy"
  }

  /** `correct ? "good" : "again"`: the grade a quiz answer gives, which is
      reported back as correct exactly when the answer was right. */
  function QuizGrade(ok: bool): (r: string)
    ensures IsCorrect(r) == ok
    ensures ParseGrade(r) == Some(if ok then Good else Again)
  {
    if ok then "good" else "again"
  }

  // ---------------------------------------------------------------------
  // Properties of the policy

  /** The ease never falls below 1.3: a grade that lowers it stops at 1.3,
      and it stays exactly 1.3 when it already was at (or under) the floor. */
  lemma EaseFloor(s: Srs, g: Grade, t: int)
    ensures s.ease >= MinEase ==> Next(s, g, t).ease >= MinEase
    ensures (g == Again || g == Hard) && s.ease <= MinEase ==> Next(s, g, t).ease == MinEase
    ensures g == Easy ==> Next(s, g, t).ease == s.ease + 15
  {
  }

  lemma {:induction false} MulMonotone(a: int, b: int, c: int)
    requires a >= 0 && b <= c
    ensures a * b <= a * c
  {
    assert a * c - a * b == a * (c - b);
  }

  /** Under a well-formed state, every grade but "again" schedules at least
      one day ahead and never shortens the interval. */
  lemma {:induction false} IntervalGrows(s: Srs, g: Grade, t: int)
    requires Valid(s) && g != Again
    ensures Next(s, g, t).interval >= 1
    ensures Next(s, g, t).interval >= s.interval
  {
    var i := s.interval;
    if i > 0 {
      match g
      case Hard =>
        MulMonotone(i, 100, 120);
      case Good =>
        MulMonotone(i, 100, s.ease);
      case Easy =>
        MulMonotone(i, 100, s.ease + 30);
    }
  }

  /** A scheduled card is never due in the past. */
  lemma {:induction false} DueNotInPast(s: Srs, g: Grade, t: int)
    requires Valid(s)
    ensures Next(s, g, t).due >= t
  {
    if g != Again {
      IntervalGrows(s, g, t);
      var r := Next(s, g, t);
      MulMonotone(MsPerDay, 0, r.interval);
    }
  }

  /** Every grade keeps a well-formed state well-formed. */
  lemma {:induction false} ValidPreserved(s: Srs, g: Grade, t: int)
    requires Valid(s)
    ensures Valid(Next(s, g, t))
  {
    EaseFloor(s, g, t);
    if g != Again {
      IntervalGrows(s, g, t);
    }
  }

  /** A better grade never brings the card back sooner: "again" is due
      before "hard", "hard" no later than "good", "good" no later than "easy". */
  lemma {:induction false} BetterGradeLaterDue(s: Srs, t: int)
    requires Valid(s)
    ensures Next(s, Again, t).due < Next(s, Hard, t).due
    ensures Next(s, Hard, t).interval <= Next(s, Good, t).interval <= Next(s, Easy, t).interval
    ensures Next(s, Hard, t).due <= Next(s, Good, t).due <= Next(s, Easy, t).due
  {
    var i := s.interval;
    IntervalGrows(s, Hard, t);
    var h, g, e := HardInterval(i), GoodInterval(i, s.ease), EasyInterval(i, s.ease + 15);
    if i > 0 {
      MulMonotone(i, 120, s.ease);
      RoundMonotone(i * 120, i * s.ease);
      MulMonotone(i, s.ease, s.ease + 30);
      RoundMonotone(i * s.ease, i * (s.ease + 30));
      MulMonotone(i, 100, s.ease + 30);
    }
    assert 1 <= h <= g <= e;
    MulMonotone(MsPerDay, h, g);
    MulMonotone(MsPerDay, g, e);
    MulMonotone(MsPerDay, 1, h);
  }

  /** Only "again" counts a lapse; no grade ever lowers the lapse count. */
  lemma LapsesNeverDecrease(s: Srs, grade: string, t: int)
    ensures Apply(s, grade, t).lapses >= s.lapses
    ensures Apply(s, grade, t).lapses == s.lapses + 1 <==> grade == "again"
  {
  }

  /** A fresh card graded good, good, then again. */
  lemma FreshCardScenario(t0: int, t1: int, t2: int, t3: int)
    ensures Next(Default(t0), Good, t1) == Srs(1, 250, 1, t1 + MsPerDay, 0)
    ensures Next(Next(Default(t0), Good, t1), Good, t2) == Srs(2, 250, 3, t2 + 3 * MsPerDay, 0)
    ensures Next(Next(Next(Default(t0), Good, t1), Good, t2), Again, t3) == Srs(0, 230, 0, t3 + AgainDelayMs, 1)
  {
  }

  /** reps 2, interval 3, ease 2.5 graded "easy": ease 2.65 and
      interval round(3 * 2.8) = 8. */
  lemma EasyScenario(due: int, lapses: int, t: int)
    ensures Next(Srs(2, 250, 3, due, lapses), Easy, t) == Srs(3, 265, 8, t + 8 * MsPerDay, lapses)
  {
  }
}
