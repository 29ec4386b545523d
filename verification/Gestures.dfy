/** The five chapter gestures: the patch each builds from a row, and what that patch writes. */
module Gestures {
  import opened Basics

  /** The two values of an anime the card draws. */
  datatype Shown = Shown(chapters: real, status: int)

  /** An anime row as a gesture reads it. */
  datatype Card = Card(shown: Shown, total: Option<real>, firstCycle: bool, lastWatched: int, premiered: int)

  datatype Gesture = CapPlus | CapMinus | CapPlusHalf | CapMinusHalf | SetStatus(status: int)

  /** The fields one gesture sends; an absent one is left alone. */
  datatype Patch = Patch(
    episodesWatched: Option<real>,
    lastWatchedAt: Option<int>,
    status: Option<int>,
    premieredAt: Option<int>,
    firstCycle: Option<bool>)

  const WATCHING := 0
  const FINISHED := 1

  predicate HasTotal(card: Card) { card.total.Some? && card.total.value > 0.0 }

  function AtLeastZero(chapters: real): real { if chapters < 0.0 then 0.0 else chapters }

  /** The anime was finished at its last chapter: stepping back reopens it. */
  predicate Reopens(card: Card) {
    card.shown.status == FINISHED && HasTotal(card) && card.shown.chapters == card.total.value
  }

  function BuildCapPlusPatch(card: Card, now: int): Patch {
    var chapters := card.shown.chapters + 1.0;
    Patch(Some(chapters), Some(now),
      if HasTotal(card) && chapters == card.total.value then Some(FINISHED) else None,
      if card.firstCycle then Some(now) else None,
      if card.firstCycle then Some(false) else None)
  }

  function BuildCapMinusPatch(card: Card, now: int): Patch {
    Patch(Some(AtLeastZero(card.shown.chapters - 1.0)), Some(now), if Reopens(card) then Some(WATCHING) else None, None, None)
  }

  function BuildCapPlusHalfPatch(card: Card, now: int): Patch {
    var chapters := card.shown.chapters + 0.5;
    var finished := HasTotal(card) && chapters >= card.total.value;
    Patch(Some(if finished then card.total.value else chapters), Some(now), if finished then Some(FINISHED) else None,
      None, None)
  }

  function BuildCapMinusHalfPatch(card: Card, now: int): Patch {
    Patch(Some(AtLeastZero(card.shown.chapters - 0.5)), Some(now), if Reopens(card) then Some(WATCHING) else None, None, None)
  }

  function BuildSetEstadoPatch(status: int): Patch { Patch(None, None, Some(status), None, None) }

  function BuildPatch(gesture: Gesture, card: Card, now: int): Patch {
    match gesture
    case CapPlus => BuildCapPlusPatch(card, now)
    case CapMinus => BuildCapMinusPatch(card, now)
    case CapPlusHalf => BuildCapPlusHalfPatch(card, now)
    case CapMinusHalf => BuildCapMinusHalfPatch(card, now)
    case SetStatus(status) => BuildSetEstadoPatch(status)
  }

  function Or<T>(value: Option<T>, other: T): T { if value.Some? then value.value else other }

  /** The row after a patch: exactly the fields it carries are written. */
  function WritePatch(card: Card, patch: Patch): Card {
    Card(Shown(Or(patch.episodesWatched, card.shown.chapters), Or(patch.status, card.shown.status)), card.total,
      Or(patch.firstCycle, card.firstCycle), Or(patch.lastWatchedAt, card.lastWatched), Or(patch.premieredAt, card.premiered))
  }

  /** The write of a gesture: its patch, built from the row as the transaction reads it. */
  function Perform(gesture: Gesture, card: Card, now: int): Card { WritePatch(card, BuildPatch(gesture, card, now)) }

  /** What the card shows for a gesture: its patch, built from the values drawn. */
  function Project(gesture: Gesture, card: Card, now: int): Shown {
    var patch := BuildPatch(gesture, card, now);
    Shown(Or(patch.episodesWatched, card.shown.chapters), Or(patch.status, card.shown.status))
  }

  /** The status a gesture leaves: finished by reaching the total, reopened by stepping back from it, or as it was. */
  predicate StatusFollows(card: Card, after: Card, finishes: bool, reopens: bool) {
    after.shown.status == if finishes then 1 else if reopens then 0 else card.shown.status
  }

  /** What the write of each gesture leaves in the row, column by column. */
  lemma GesturesWriteTheirColumns(gesture: Gesture, card: Card, now: int)
    ensures var after := Perform(gesture, card, now);
      var chapters, total := card.shown.chapters, if card.total.Some? then card.total.value else 0.0;
      var atTotal := total > 0.0 && card.shown.status == 1 && chapters == total;
      && after.total == card.total
      && (match gesture
          case CapPlus =>
            && after.shown.chapters == chapters + 1.0 && StatusFollows(card, after, total > 0.0 && chapters + 1.0 == total, false)
            && after.lastWatched == now && after.premiered == (if card.firstCycle then now else card.premiered)
            && !after.firstCycle
          case CapMinus =>
            && after.shown.chapters == (if chapters < 1.0 then 0.0 else chapters - 1.0)
            && StatusFollows(card, after, false, atTotal)
            && after.lastWatched == now && after.premiered == card.premiered && after.firstCycle == card.firstCycle
          case CapPlusHalf =>
            var reached := total > 0.0 && chapters + 0.5 >= total;
            && after.shown.chapters == (if reached then total else chapters + 0.5) && StatusFollows(card, after, reached, false)
            && after.lastWatched == now && after.premiered == card.premiered && after.firstCycle == card.firstCycle
          case CapMinusHalf =>
            && after.shown.chapters == (if chapters < 0.5 then 0.0 else chapters - 0.5)
            && StatusFollows(card, after, false, atTotal)
            && after.lastWatched == now && after.premiered == card.premiered && after.firstCycle == card.firstCycle
          case SetStatus(status) => after == card.(shown := Shown(chapters, status)))
  {
    match gesture case _ =>
  }

  /** Rows that draw alike: same pair, same total. */
  predicate DrawnAlike(a: Card, b: Card) { a.shown == b.shown && a.total == b.total }

  /** The pair a gesture leads to depends on nothing but the pair it starts from and the total, whenever it is built. */
  lemma GesturesReadOnlyWhatIsDrawn(gesture: Gesture, a: Card, b: Card, now: int, later: int)
    requires DrawnAlike(a, b)
    ensures Project(gesture, a, now) == Perform(gesture, b, later).shown
    ensures Perform(gesture, b, later).total == b.total
  {
  }

  /** Chapters never go below zero, and only the half step is held at a total it reaches. */
  lemma GesturesStayInRange(gesture: Gesture, card: Card, now: int)
    requires card.shown.chapters >= 0.0
    ensures var next := Perform(gesture, card, now).shown;
      && next.chapters >= 0.0
      && (gesture == CapPlusHalf && HasTotal(card) ==> next.chapters <= card.total.value)
      && (gesture.CapPlus? && HasTotal(card) ==>
            (next.status == FINISHED <==> card.shown.status == FINISHED || next.chapters == card.total.value))
  {
  }

  /** A full step forward ends the anime at its last chapter. */
  predicate Finishes(card: Card) { HasTotal(card) && card.shown.chapters + 1.0 == card.total.value }

  /** A half step forward is held at the total. */
  predicate IsHeld(card: Card) { HasTotal(card) && card.shown.chapters + 0.5 >= card.total.value }

  /**
   * From any status and any row: stepping back undoes a step forward exactly when the count was not negative and the
   * step did not finish an anime that was anything but watched. A half step held at the total must besides have reached
   * it exactly, or started at zero.
   */
  lemma StepBackUndoesStepForward(card: Card, now: int, later: int)
    ensures Perform(CapMinus, Perform(CapPlus, card, now), later).shown == card.shown
      <==> card.shown.chapters >= 0.0 && (Finishes(card) ==> card.shown.status == WATCHING)
    ensures Perform(CapMinusHalf, Perform(CapPlusHalf, card, now), later).shown == card.shown
      <==> card.shown.chapters >= 0.0
           && (IsHeld(card) ==> card.shown.status == WATCHING
                                && (card.shown.chapters + 0.5 == card.total.value || card.shown.chapters == 0.0))
  {
  }

  /** Watching at 12 of 12, a half step stays at 12 and a half step back then leaves 11.5. */
  lemma AHeldHalfStepIsNotUndone(card: Card, now: int, later: int)
    requires card.shown == Shown(12.0, WATCHING) && card.total == Some(12.0)
    ensures Perform(CapPlusHalf, card, now).shown == Shown(12.0, FINISHED)
    ensures Perform(CapMinusHalf, Perform(CapPlusHalf, card, now), later).shown == Shown(11.5, WATCHING)
  {
  }
}
