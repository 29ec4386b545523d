/**
 * One anime under the user's hands: presses are shown at once and written later, in order, while the list reads the row
 * whenever it draws, deadlines expire and writes fail. Nobody else writes the row.
 */
module ChapterSession {
  import opened Basics
  import opened Gestures
  import opened Projection

  /** A gesture whose write waits its turn: the pair and the entry it was shown with, and whether its caller gave up on it. */
  datatype Write = Write(gesture: Gesture, promised: Shown, entry: Option<nat>, expired: bool)

  datatype Session = Session(row: Card, record: Record, pending: seq<Write>, current: nat)

  /** A press, the end of the first pending write, a deadline of any of them, or a read. */
  datatype Event = Press(gesture: Gesture, at: int) | Commit(at: int) | Fail | Expire(index: nat) | Look(read: nat)

  function Drawn(session: Session): Shown {
    Fold(session.record.entries, session.record.durable.card.shown).0
  }

  /** A rejected gesture's entry goes with every later one, if it is still listed. */
  function Dropped(record: Record, entry: Option<nat>): Record {
    if entry.None? then record else Record(record.durable, record.entries[..IndexOf(record.entries, entry.value)])
  }

  function Pressed(session: Session, gesture: Gesture, at: int): Session {
    var record := session.record;
    var base := Overlay(record.durable.card, record.entries);
    var projected := Project(gesture, base, at);
    var id := session.current + 1;
    if projected == base.shown
    then session.(pending := session.pending + [Write(gesture, projected, None, false)])
    else Session(session.row, Record(record.durable, record.entries + [Entry(id, base.shown, projected)]),
                 session.pending + [Write(gesture, projected, Some(id), false)], id)
  }

  /** A write whose deadline expires is rejected to its caller, and is still written when its turn comes. */
  function Next(session: Session, event: Event): Session {
    match event
    case Press(gesture, at) => Pressed(session, gesture, at)
    case Commit(at) =>
      if session.pending == [] then session
      else session.(row := Perform(session.pending[0].gesture, session.row, at), pending := session.pending[1..])
    case Fail =>
      if session.pending == [] then session
      else
        var write := session.pending[0];
        session.(record := if write.expired then session.record else Dropped(session.record, write.entry),
                 pending := session.pending[1..])
    case Expire(i) =>
      if i >= |session.pending| || session.pending[i].expired then session
      else session.(record := Dropped(session.record, session.pending[i].entry),
                    pending := session.pending[i := session.pending[i].(expired := true)])
    case Look(read) => session.(record := Observed(Some(session.record), DurableRow(read, session.row)))
  }

  function Run(session: Session, events: seq<Event>): Session {
    if events == [] then session else Next(Run(session, events[..|events| - 1]), events[|events| - 1])
  }

  // ----- Where the pending writes lead -----

  /** The pair a gesture leads to. */
  function Move(gesture: Gesture, shown: Shown, total: Option<real>): Shown {
    Project(gesture, Card(shown, total, false, 0, 0), 0)
  }

  function After(shown: Shown, total: Option<real>, writes: seq<Write>): Shown
    decreases |writes|
  {
    if writes == [] then shown else After(Move(writes[0].gesture, shown, total), total, writes[1..])
  }

  /** The pair the row will hold once every pending write has committed. */
  function Target(session: Session): Shown { After(session.row.shown, session.row.total, session.pending) }

  /** The writes that change the pair, as the entries their gestures were shown with. */
  function Moves(shown: Shown, total: Option<real>, writes: seq<Write>): seq<(Shown, Shown)>
    decreases |writes|
  {
    if writes == [] then []
    else
      var next := Move(writes[0].gesture, shown, total);
      if next == shown then Moves(next, total, writes[1..]) else [(shown, next)] + Moves(next, total, writes[1..])
  }

  lemma {:induction false} MovesLeadToTarget(shown: Shown, total: Option<real>, writes: seq<Write>)
    ensures var moves := Moves(shown, total, writes);
      if moves == [] then After(shown, total, writes) == shown
      else moves[0].0 == shown && moves[|moves| - 1].1 == After(shown, total, writes)
    decreases |writes|
  {
    if writes != [] {
      MovesLeadToTarget(Move(writes[0].gesture, shown, total), total, writes[1..]);
    }
  }

  lemma {:induction false} AfterOneMore(shown: Shown, total: Option<real>, writes: seq<Write>, write: Write)
    ensures After(shown, total, writes + [write]) == Move(write.gesture, After(shown, total, writes), total)
    ensures var before, next := After(shown, total, writes), Move(write.gesture, After(shown, total, writes), total);
      Moves(shown, total, writes + [write])
      == if next == before then Moves(shown, total, writes) else Moves(shown, total, writes) + [(before, next)]
    decreases |writes|
  {
    if writes == [] {
      assert ([] + [write])[1..] == [];
    } else {
      assert (writes + [write])[1..] == writes[1..] + [write];
      AfterOneMore(Move(writes[0].gesture, shown, total), total, writes[1..], write);
    }
  }

  // ----- What a session keeps -----

  /** The entries end with those of the writes still to move the row. */
  ghost predicate EndsWith(entries: seq<Entry>, moves: seq<(Shown, Shown)>) {
    && |moves| <= |entries|
    && forall i | 0 <= i < |moves| ::
         var entry := entries[|entries| - |moves| + i];
         (entry.base, entry.projected) == moves[i]
  }

  /** Every promise is what its write will store. */
  ghost predicate Promised(shown: Shown, total: Option<real>, writes: seq<Write>)
    decreases |writes|
  {
    writes == []
    || (writes[0].promised == Move(writes[0].gesture, shown, total)
        && Promised(Move(writes[0].gesture, shown, total), total, writes[1..]))
  }

  /** What every session keeps, whatever happens: a chain that applies fully from the row it was drawn from. */
  ghost predicate Sound(session: Session) {
    && Kept(session.record, session.current)
    && session.record.durable.card.total == session.row.total
  }

  /** The card draws where the pending writes lead, and each of them will store what it was shown with. */
  ghost predicate Aligned(session: Session) {
    && Drawn(session) == Target(session)
    && Promised(session.row.shown, session.row.total, session.pending)
  }

  ghost predicate OnTarget(session: Session) {
    && Sound(session) && Aligned(session)
    && EndsWith(session.record.entries, Moves(session.row.shown, session.row.total, session.pending))
  }

  /** The writes still to move the row do not bring it back to the pair it holds now. */
  ghost predicate SafeToLook(session: Session) {
    Moves(session.row.shown, session.row.total, session.pending) != [] ==> Target(session) != session.row.shown
  }

  lemma {:induction false} PromisedOneMore(shown: Shown, total: Option<real>, writes: seq<Write>, write: Write)
    requires Promised(shown, total, writes) && write.promised == Move(write.gesture, After(shown, total, writes), total)
    ensures Promised(shown, total, writes + [write])
    decreases |writes|
  {
    if writes == [] {
      assert ([] + [write])[1..] == [];
    } else {
      assert (writes + [write])[1..] == writes[1..] + [write];
      PromisedOneMore(Move(writes[0].gesture, shown, total), total, writes[1..], write);
    }
  }

  lemma PressKeepsAligned(session: Session, gesture: Gesture, at: int)
    requires Sound(session)
    ensures var next := Next(session, Press(gesture, at));
      && Sound(next)
      && next.row == session.row && |next.pending| == |session.pending| + 1
      && next.pending[..|session.pending|] == session.pending
      && next.pending[|session.pending|].gesture == gesture
      && next.pending[|session.pending|].promised == Move(gesture, Drawn(session), session.row.total) == Drawn(next)
      && (Aligned(session) ==> Aligned(next))
  {
    hide Promised, After, Linked;
    var record := session.record;
    var base := Overlay(record.durable.card, record.entries);
    var projected := Project(gesture, base, at);
    var next := Next(session, Press(gesture, at));
    GesturesReadOnlyWhatIsDrawn(gesture, base, Card(base.shown, base.total, false, 0, 0), at, 0);
    if projected != base.shown {
      ChainGrows(record, Entry(session.current + 1, base.shown, projected), session.current);
    }
    if Aligned(session) {
      var write := next.pending[|session.pending|];
      AfterOneMore(session.row.shown, session.row.total, session.pending, write);
      PromisedOneMore(session.row.shown, session.row.total, session.pending, write);
    }
  }

  lemma CommitKeepsAligned(session: Session, at: int)
    requires Sound(session)
    ensures Sound(Next(session, Commit(at)))
    ensures Aligned(session) ==> Aligned(Next(session, Commit(at)))
    ensures Aligned(session) && session.pending != [] ==> Next(session, Commit(at)).row.shown == session.pending[0].promised
  {
    if session.pending != [] {
      var gesture := session.pending[0].gesture;
      GesturesReadOnlyWhatIsDrawn(gesture, Card(session.row.shown, session.row.total, false, 0, 0), session.row, 0, at);
    }
  }

  lemma CommitKeepsTarget(session: Session, at: int)
    requires OnTarget(session) && session.pending != []
    ensures OnTarget(Next(session, Commit(at)))
    ensures Next(session, Commit(at)).row.shown == session.pending[0].promised
  {
    var gesture := session.pending[0].gesture;
    CommitKeepsAligned(session, at);
    GesturesReadOnlyWhatIsDrawn(gesture, Card(session.row.shown, session.row.total, false, 0, 0), session.row, 0, at);
    EndsWithTail(session.record.entries, Moves(session.row.shown, session.row.total, session.pending));
  }

  lemma EndsWithTail(entries: seq<Entry>, moves: seq<(Shown, Shown)>)
    requires EndsWith(entries, moves)
    ensures moves != [] ==> EndsWith(entries, moves[1..])
  {
    forall i | 0 <= i < |moves| - 1
      ensures (entries[|entries| - |moves| + 1 + i].base, entries[|entries| - |moves| + 1 + i].projected) == moves[1..][i]
    {
      assert moves[1..][i] == moves[i + 1];
    }
  }

  /** Read at the pair every pending write leaves alone, the list is emptied and draws the row. */
  lemma LookSettles(entries: seq<Entry>, durable: Shown, shown: Shown)
    requires ChainFrom(entries, durable) && Fold(entries, durable).0 == shown
    ensures Fold(entries, shown).0 == shown
  {
    FoldsFully(entries, durable);
    OnlyTwoValuesAreShown(entries, shown);
  }

  /** Read while writes are still to move the row elsewhere, the list keeps their entries and draws the same pair. */
  lemma LookPrunes(entries: seq<Entry>, durable: Shown, shown: Shown, moves: seq<(Shown, Shown)>, target: Shown)
    requires ChainFrom(entries, durable) && EndsWith(entries, moves)
    requires moves != [] && moves[0].0 == shown && moves[|moves| - 1].1 == target
    ensures var (fields, kept) := Fold(entries, shown);
      fields == target && ChainFrom(kept, shown) && Fold(kept, shown).0 == target && EndsWith(kept, moves)
  {
    FoldIsSuffix(entries, shown);
    FoldLeavesAChain(entries, shown);
    var k := StartAt(entries, shown);
    assert entries[|entries| - |moves|].base == shown;
    assert entries[|entries| - 1].projected == target;
    EndsWithSuffix(entries, moves, k);
    var kept := entries[k..];
    assert kept[|kept| - 1] == entries[|entries| - 1];
    hide Fold, Linked, EndsWith;
    FoldsFully(kept, shown);
  }

  lemma EndsWithSuffix(entries: seq<Entry>, moves: seq<(Shown, Shown)>, k: nat)
    requires EndsWith(entries, moves) && k <= |entries| - |moves|
    ensures EndsWith(entries[k..], moves)
  {
    var kept := entries[k..];
    forall i | 0 <= i < |moves|
      ensures (kept[|kept| - |moves| + i].base, kept[|kept| - |moves| + i].projected) == moves[i]
    {
      assert kept[|kept| - |moves| + i] == entries[|entries| - |moves| + i];
    }
  }

  lemma LookKeepsSound(session: Session, read: nat)
    requires Sound(session)
    ensures Sound(Next(session, Look(read)))
  {
    ObservedIsKept(Some(session.record), DurableRow(read, session.row), session.current);
  }

  lemma LookKeepsTarget(session: Session, read: nat)
    requires OnTarget(session) && SafeToLook(session)
    ensures OnTarget(Next(session, Look(read)))
  {
    var entries, durable, shown := session.record.entries, session.record.durable.card.shown, session.row.shown;
    var moves := Moves(shown, session.row.total, session.pending);
    LookKeepsSound(session, read);
    MovesLeadToTarget(shown, session.row.total, session.pending);
    if moves == [] {
      LookSettles(entries, durable, shown);
      assert Fold([], shown) == (shown, []);
    } else {
      LookPrunes(entries, durable, shown, moves, Target(session));
    }
  }

  /** A session that starts with nothing pending and the row as drawn. */
  ghost predicate Fresh(session: Session) {
    session.pending == [] && session.record.entries == [] && session.record.durable.card == session.row
  }

  lemma FreshIsOnTarget(session: Session)
    requires Fresh(session)
    ensures OnTarget(session)
  {
    assert Fold([], session.row.shown) == (session.row.shown, []);
  }

  // ----- Exactly when what is written is what was shown -----

  /** What the card draws once the gesture of a write is rejected. */
  function Fallback(session: Session, write: Write): Shown {
    if write.entry.None? || write.expired then Drawn(session)
    else
      var entries := session.record.entries;
      var k := IndexOf(entries, write.entry.value);
      if k < |entries| then entries[k].base else Drawn(session)
  }

  /**
   * What an event must find for the card and the writes to agree after it. A read must find the row where the writes lead,
   * or at a pair some listed gesture starts from. A rejected gesture must have started where the writes lead without it;
   * and a write that fails must not be followed by one that would have stored another pair behind it.
   */
  ghost predicate Harmless(session: Session, event: Event) {
    match event
    case Press(_, _) => true
    case Commit(_) => true
    case Look(_) =>
      var entries := session.record.entries;
      session.row.shown == Target(session) || exists i | 0 <= i < |entries| :: entries[i].base == session.row.shown
    case Expire(i) => i < |session.pending| ==> Fallback(session, session.pending[i]) == Target(session)
    case Fail =>
      session.pending != [] ==>
        var shown, total, rest := session.row.shown, session.row.total, session.pending[1..];
        && (rest != [] ==> Move(rest[0].gesture, shown, total) == rest[0].promised)
        && Fallback(session, session.pending[0]) == After(shown, total, rest)
  }

  lemma DroppedIsKept(session: Session, entry: Option<nat>)
    requires Sound(session)
    ensures Kept(Dropped(session.record, entry), session.current)
    ensures var dropped := Dropped(session.record, entry);
      Fold(dropped.entries, dropped.durable.card.shown).0 == Fallback(session, Write(SetStatus(0), Drawn(session), entry, false))
  {
    if entry.Some? {
      var entries, from := session.record.entries, session.record.durable.card.shown;
      var k := IndexOf(entries, entry.value);
      PrefixIsKept(session.record, k, session.current);
      FoldsFully(entries[..k], from);
      if k == |entries| {
        assert entries[..k] == entries;
      } else {
        assert k > 0 ==> entries[k - 1].projected == entries[k].base;
      }
    }
  }

  /** Where the writes lead, and what they promise, does not depend on who still waits for them. */
  lemma {:induction false} ExpiryMovesNoWrite(shown: Shown, total: Option<real>, writes: seq<Write>, i: nat)
    requires i < |writes|
    ensures var after := writes[i := writes[i].(expired := true)];
      After(shown, total, after) == After(shown, total, writes) && (Promised(shown, total, after) <==> Promised(shown, total, writes))
    decreases |writes|
  {
    var after := writes[i := writes[i].(expired := true)];
    if i == 0 {
      assert after[1..] == writes[1..];
    } else {
      assert after[1..] == writes[1..][i - 1 := writes[1..][i - 1].(expired := true)];
      ExpiryMovesNoWrite(Move(writes[0].gesture, shown, total), total, writes[1..], i - 1);
    }
  }

  lemma LookAlignsExactlyWhen(session: Session, read: nat)
    requires Sound(session) && Aligned(session)
    ensures Aligned(Next(session, Look(read))) <==> Harmless(session, Look(read))
  {
    hide Promised, After;
    var entries, shown := session.record.entries, session.row.shown;
    FoldsFully(entries, session.record.durable.card.shown);
    OnlyTwoValuesAreShown(entries, shown);
    FoldLeavesAChain(entries, shown);
    FoldsFully(Fold(entries, shown).1, shown);
    assert Fold([], shown) == (shown, []);
  }

  lemma ExpireAlignsExactlyWhen(session: Session, i: nat)
    requires Sound(session) && Aligned(session)
    ensures Sound(Next(session, Expire(i)))
    ensures Aligned(Next(session, Expire(i))) <==> Harmless(session, Expire(i))
  {
    if i < |session.pending| && !session.pending[i].expired {
      DroppedIsKept(session, session.pending[i].entry);
      ExpiryMovesNoWrite(session.row.shown, session.row.total, session.pending, i);
    }
  }

  lemma FailAlignsExactlyWhen(session: Session)
    requires Sound(session) && Aligned(session)
    ensures Sound(Next(session, Fail))
    ensures Aligned(Next(session, Fail)) <==> Harmless(session, Fail)
  {
    if session.pending != [] {
      DroppedIsKept(session, session.pending[0].entry);
      var shown, total, rest := session.row.shown, session.row.total, session.pending[1..];
      PromisedBehind(shown, Move(session.pending[0].gesture, shown, total), total, rest);
      hide After, Promised, Move, Fold, Linked;
    }
  }

  /** Promises made from one pair hold from another exactly when the first of them leads to the same pair from there. */
  lemma PromisedBehind(shown: Shown, next: Shown, total: Option<real>, writes: seq<Write>)
    requires Promised(next, total, writes)
    ensures Promised(shown, total, writes)
      <==> (writes != [] ==> Move(writes[0].gesture, shown, total) == writes[0].promised)
  {
  }

  /** One event keeps the card and the writes in agreement exactly when it is harmless where it happens. */
  lemma EventAlignsExactlyWhen(session: Session, event: Event)
    requires Sound(session) && Aligned(session)
    ensures Sound(Next(session, event))
    ensures Aligned(Next(session, event)) <==> Harmless(session, event)
  {
    match event
    case Press(gesture, at) => PressKeepsAligned(session, gesture, at);
    case Commit(at) => CommitKeepsAligned(session, at);
    case Look(read) =>
      LookKeepsSound(session, read);
      LookAlignsExactlyWhen(session, read);
    case Expire(i) => ExpireAlignsExactlyWhen(session, i);
    case Fail => FailAlignsExactlyWhen(session);
  }

  lemma EventKeepsSound(session: Session, event: Event)
    requires Sound(session)
    ensures Sound(Next(session, event))
  {
    match event
    case Press(gesture, at) => PressKeepsAligned(session, gesture, at);
    case Commit(at) => CommitKeepsAligned(session, at);
    case Look(read) => LookKeepsSound(session, read);
    case Expire(i) =>
      if i < |session.pending| && !session.pending[i].expired {
        DroppedIsKept(session, session.pending[i].entry);
      }
    case Fail =>
      if session.pending != [] {
        DroppedIsKept(session, session.pending[0].entry);
      }
  }

  lemma {:induction false} RunKeepsSound(session: Session, events: seq<Event>)
    requires Sound(session)
    ensures Sound(Run(session, events))
  {
    if events != [] {
      RunKeepsSound(session, events[..|events| - 1]);
      EventKeepsSound(Run(session, events[..|events| - 1]), events[|events| - 1]);
    }
  }

  ghost predicate AlignedAfter(session: Session, events: seq<Event>, k: nat)
    requires k <= |events|
  {
    Aligned(Run(session, events[..k]))
  }

  ghost predicate HarmlessAt(session: Session, events: seq<Event>, k: nat)
    requires k < |events|
  {
    Harmless(Run(session, events[..k]), events[k])
  }

  ghost predicate HarmlessThroughout(session: Session, events: seq<Event>) {
    forall k | 0 <= k < |events| :: HarmlessAt(session, events, k)
  }

  lemma {:induction false} HarmlessUpTo(session: Session, events: seq<Event>, n: nat)
    requires Sound(session) && Aligned(session) && n <= |events|
    ensures (forall k | 0 <= k <= n :: AlignedAfter(session, events, k))
      <==> forall k | 0 <= k < n :: HarmlessAt(session, events, k)
  {
    hide Run, Sound, Aligned, Harmless;
    if n == 0 {
      RunOfNone(session);
      assert events[..0] == [];
      assert AlignedAfter(session, events, 0);
    } else {
      HarmlessUpTo(session, events, n - 1);
      RunKeepsSound(session, events[..n - 1]);
      RunPrefix(session, events, n - 1);
      if AlignedAfter(session, events, n - 1) {
        EventAlignsExactlyWhen(Run(session, events[..n - 1]), events[n - 1]);
        assert AlignedAfter(session, events, n) <==> HarmlessAt(session, events, n - 1);
      }
      hide AlignedAfter, HarmlessAt;
      assert (forall k | 0 <= k <= n :: AlignedAfter(session, events, k))
        <==> (forall k | 0 <= k <= n - 1 :: AlignedAfter(session, events, k)) && AlignedAfter(session, events, n);
      assert (forall k | 0 <= k < n :: HarmlessAt(session, events, k))
        <==> (forall k | 0 <= k < n - 1 :: HarmlessAt(session, events, k)) && HarmlessAt(session, events, n - 1);
    }
  }

  lemma RunOfNone(session: Session)
    ensures Run(session, []) == session
  {
  }

  function Commits(n: nat): seq<Event> { seq(n, _ => Commit(0)) }

  /** Pressed now, and with nothing failing any more, every write stores the pair its gesture was shown with. */
  ghost predicate KeepsPromises(session: Session, gesture: Gesture) {
    var pressed := Next(session, Press(gesture, 0));
    forall n | 0 <= n < |pressed.pending| :: StoresItsPromise(pressed, n)
  }

  ghost predicate StoresItsPromise(session: Session, n: nat)
    requires n < |session.pending|
  {
    Run(session, Commits(n + 1)).row.shown == session.pending[n].promised
  }

  /** The pair promised by the next press is the pair its write stores. */
  ghost predicate KeepsNextPromise(session: Session, gesture: Gesture) {
    var pressed := Next(session, Press(gesture, 0));
    pressed.pending != [] && StoresItsPromise(pressed, |pressed.pending| - 1)
  }

  lemma {:induction false} PromisedAt(shown: Shown, total: Option<real>, writes: seq<Write>)
    ensures Promised(shown, total, writes)
      <==> forall n | 0 <= n < |writes| :: writes[n].promised == After(shown, total, writes[..n + 1])
    decreases |writes|
  {
    if writes != [] {
      var next, rest := Move(writes[0].gesture, shown, total), writes[1..];
      PromisedAt(next, total, rest);
      forall n | 0 <= n < |writes| ensures After(shown, total, writes[..n + 1]) == After(next, total, rest[..n]) {
        assert writes[..n + 1][1..] == rest[..n];
      }
      assert After(next, total, rest[..0]) == next;
      assert forall n | 0 <= n < |rest| :: rest[n] == writes[n + 1];
      if forall n | 0 <= n < |writes| :: writes[n].promised == After(shown, total, writes[..n + 1]) {
        forall n | 0 <= n < |rest| ensures rest[n].promised == After(next, total, rest[..n + 1]) {
          assert writes[n + 1].promised == After(shown, total, writes[..n + 2]);
        }
      }
    }
  }

  lemma StoredExactlyWhenPromised(session: Session)
    ensures (forall n | 0 <= n < |session.pending| :: StoresItsPromise(session, n))
      <==> Promised(session.row.shown, session.row.total, session.pending)
  {
    PromisedAt(session.row.shown, session.row.total, session.pending);
    forall n | 0 <= n < |session.pending|
      ensures StoresItsPromise(session, n)
        <==> session.pending[n].promised == After(session.row.shown, session.row.total, session.pending[..n + 1])
    {
      CommitMany(session, n + 1);
    }
  }

  /** Two different pairs lead to different pairs under some gesture. */
  lemma SomeGestureTellsApart(a: Shown, b: Shown, total: Option<real>) returns (gesture: Gesture)
    requires a != b
    ensures Move(gesture, a, total) != Move(gesture, b, total)
  {
    gesture := if a.chapters == b.chapters && total == Some(a.chapters + 1.0) then CapMinus else CapPlus;
  }

  /** Every gesture would be stored as shown exactly when the card draws where the pending writes lead. */
  lemma NextPromiseIsKeptExactlyWhen(session: Session)
    requires Sound(session)
    ensures (forall gesture :: KeepsNextPromise(session, gesture)) <==> Drawn(session) == Target(session)
  {
    hide Run, Kept;
    forall gesture
      ensures KeepsNextPromise(session, gesture)
        <==> Move(gesture, Drawn(session), session.row.total) == Move(gesture, Target(session), session.row.total)
    {
      var pressed := Next(session, Press(gesture, 0));
      PressKeepsAligned(session, gesture, 0);
      var last := |pressed.pending| - 1;
      CommitMany(pressed, last + 1);
      assert pressed.pending[..last + 1] == session.pending + [pressed.pending[last]];
      AfterOneMore(session.row.shown, session.row.total, session.pending, pressed.pending[last]);
    }
    if Drawn(session) != Target(session) {
      var gesture := SomeGestureTellsApart(Drawn(session), Target(session), session.row.total);
      assert !KeepsNextPromise(session, gesture);
    }
  }

  /** Every promise of a session, and of any next press, is kept exactly when card and writes agree. */
  lemma PromisesAreKeptExactlyWhen(session: Session)
    requires Sound(session)
    ensures (forall gesture :: KeepsPromises(session, gesture)) <==> Aligned(session)
  {
    hide Run, Kept, Promised;
    NextPromiseIsKeptExactlyWhen(session);
    forall gesture ensures KeepsPromises(session, gesture) ==> KeepsNextPromise(session, gesture)
                   ensures Aligned(session) ==> KeepsPromises(session, gesture)
    {
      PressKeepsAligned(session, gesture, 0);
      StoredExactlyWhenPromised(Next(session, Press(gesture, 0)));
    }
    if forall gesture :: KeepsPromises(session, gesture) {
      assert KeepsPromises(session, CapPlus);
      PressKeepsAligned(session, CapPlus, 0);
      var pressed := Next(session, Press(CapPlus, 0));
      StoredExactlyWhenPromised(pressed);
      PromisedBefore(session.row.shown, session.row.total, session.pending, pressed.pending[|session.pending|]);
      assert pressed.pending == session.pending + [pressed.pending[|session.pending|]];
    }
  }

  lemma {:induction false} PromisedBefore(shown: Shown, total: Option<real>, writes: seq<Write>, write: Write)
    ensures Promised(shown, total, writes + [write]) ==> Promised(shown, total, writes)
    decreases |writes|
  {
    if writes != [] {
      assert (writes + [write])[1..] == writes[1..] + [write];
      PromisedBefore(Move(writes[0].gesture, shown, total), total, writes[1..], write);
    }
  }

  /** After `k` events the pending writes and the next press, whatever it is, would store what they are shown with. */
  ghost predicate PromisesHold(session: Session, events: seq<Event>, k: nat)
    requires k <= |events|
  {
    forall gesture :: KeepsPromises(Run(session, events[..k]), gesture)
  }

  lemma PromisesHoldWhenAligned(session: Session, events: seq<Event>, k: nat)
    requires Sound(session) && k <= |events|
    ensures PromisesHold(session, events, k) <==> AlignedAfter(session, events, k)
  {
    hide Run, Sound, KeepsPromises, Aligned;
    RunKeepsSound(session, events[..k]);
    PromisesAreKeptExactlyWhen(Run(session, events[..k]));
  }

  /**
   * The write stores what was shown, exactly. Over any run of presses, commits, reads, failed writes and expired deadlines,
   * at every moment the writes still pending and the next press, whatever it is, store the pairs they are shown with if
   * nothing fails any more: if and only if every event of the run is harmless where it happens.
   */
  lemma WritesStoreWhatWasShownExactlyWhen(session: Session, events: seq<Event>)
    requires Fresh(session)
    ensures (forall k | 0 <= k <= |events| :: PromisesHold(session, events, k)) <==> HarmlessThroughout(session, events)
  {
    FreshIsOnTarget(session);
    HarmlessUpTo(session, events, |events|);
    forall k | 0 <= k <= |events| ensures PromisesHold(session, events, k) <==> AlignedAfter(session, events, k) {
      PromisesHoldWhenAligned(session, events, k);
    }
    hide Run, Sound, Aligned, HarmlessAt, PromisesHold, AlignedAfter;
  }

  /** In a harmless run every write that commits leaves the pair its gesture was shown with. */
  lemma WritesStoreWhatWasShown(session: Session, events: seq<Event>, k: nat, at: int)
    requires Fresh(session) && HarmlessThroughout(session, events) && k <= |events|
    ensures var state := Run(session, events[..k]);
      && Drawn(state) == Target(state)
      && (state.pending != [] ==> Next(state, Commit(at)).row.shown == state.pending[0].promised)
  {
    FreshIsOnTarget(session);
    HarmlessUpTo(session, events, |events|);
    RunKeepsSound(session, events[..k]);
    assert AlignedAfter(session, events, k);
    CommitKeepsAligned(Run(session, events[..k]), at);
  }

  // ----- Exactly when the card cannot show a pair in between -----

  /** The pair the row holds once the first `k` pending writes have committed. */
  function ValueAfter(session: Session, k: nat): Shown
    requires k <= |session.pending|
  {
    After(session.row.shown, session.row.total, session.pending[..k])
  }

  /** Once the row holds the target, no later pending write moves it off again. */
  ghost predicate SettlesOnce(session: Session) {
    forall j, k | 0 <= j <= k <= |session.pending| && ValueAfter(session, j) == Target(session) ::
      ValueAfter(session, k) == Target(session)
  }

  /** Only writes that commit and reads, in any order. */
  predicate WritesAndReads(events: seq<Event>) { forall k | 0 <= k < |events| :: events[k].Commit? || events[k].Look? }

  lemma {:induction false} UnmovedMeansNoMoves(shown: Shown, total: Option<real>, writes: seq<Write>)
    requires forall k | 0 <= k <= |writes| :: After(shown, total, writes[..k]) == shown
    ensures Moves(shown, total, writes) == []
    decreases |writes|
  {
    if writes != [] {
      assert writes[..1][1..] == [];
      assert After(shown, total, writes[..1]) == Move(writes[0].gesture, shown, total);
      forall k | 0 <= k <= |writes| - 1 ensures After(shown, total, writes[1..][..k]) == shown {
        assert writes[..k + 1][1..] == writes[1..][..k];
        assert After(shown, total, writes[..k + 1]) == shown;
      }
      UnmovedMeansNoMoves(shown, total, writes[1..]);
    }
  }

  lemma SettlingIsSafeToLook(session: Session)
    requires SettlesOnce(session)
    ensures SafeToLook(session)
  {
    var shown, total, writes := session.row.shown, session.row.total, session.pending;
    if Target(session) == shown {
      assert ValueAfter(session, 0) == shown;
      forall k | 0 <= k <= |writes| ensures After(shown, total, writes[..k]) == shown {
        assert ValueAfter(session, k) == Target(session);
      }
      UnmovedMeansNoMoves(shown, total, writes);
    }
  }

  /** A commit moves every later value one place up. */
  lemma CommitShiftsValues(session: Session, at: int, k: nat)
    requires session.pending != [] && k < |session.pending|
    ensures var next := Next(session, Commit(at));
      && next.row.total == session.row.total && next.pending == session.pending[1..] && next.record == session.record
      && Target(next) == Target(session)
      && ValueAfter(next, k) == ValueAfter(session, k + 1)
  {
    var gesture := session.pending[0].gesture;
    GesturesReadOnlyWhatIsDrawn(gesture, Card(session.row.shown, session.row.total, false, 0, 0), session.row, 0, at);
    assert session.pending[..k + 1][1..] == session.pending[1..][..k];
    assert session.pending[..k + 1][0] == session.pending[0];
  }

  lemma CommitKeepsSettling(session: Session, at: int)
    requires SettlesOnce(session) && session.pending != []
    ensures SettlesOnce(Next(session, Commit(at))) && Target(Next(session, Commit(at))) == Target(session)
  {
    var next := Next(session, Commit(at));
    CommitShiftsValues(session, at, 0);
    forall j, k | 0 <= j <= k <= |next.pending| && ValueAfter(next, j) == Target(next)
      ensures ValueAfter(next, k) == Target(next)
    {
      CommitShiftsValues(session, at, j);
      CommitShiftsValues(session, at, k);
      assert ValueAfter(session, j + 1) == Target(session);
    }
  }

  lemma {:induction false} SettlingSessionsStayOnTarget(session: Session, events: seq<Event>)
    requires OnTarget(session) && SettlesOnce(session) && WritesAndReads(events)
    ensures OnTarget(Run(session, events)) && SettlesOnce(Run(session, events))
    ensures Target(Run(session, events)) == Target(session)
  {
    if events != [] {
      SettlingSessionsStayOnTarget(session, events[..|events| - 1]);
      var state := Run(session, events[..|events| - 1]);
      match events[|events| - 1]
      case Commit(at) =>
        if state.pending != [] {
          CommitKeepsTarget(state, at);
          CommitKeepsSettling(state, at);
        }
      case Look(read) =>
        SettlingIsSafeToLook(state);
        LookKeepsTarget(state, read);
        assert forall k | 0 <= k <= |state.pending| :: ValueAfter(Next(state, Look(read)), k) == ValueAfter(state, k);
    }
  }

  lemma {:induction false} CommitMany(session: Session, n: nat)
    requires n <= |session.pending|
    ensures var state := Run(session, Commits(n));
      && state.record == session.record && state.pending == session.pending[n..]
      && state.row.shown == ValueAfter(session, n) && state.row.total == session.row.total
  {
    if n > 0 {
      CommitMany(session, n - 1);
      assert Commits(n)[..n - 1] == Commits(n - 1);
      var state := Run(session, Commits(n - 1));
      var write := session.pending[n - 1];
      assert session.pending[..n] == session.pending[..n - 1] + [write];
      AfterOneMore(session.row.shown, session.row.total, session.pending[..n - 1], write);
      GesturesReadOnlyWhatIsDrawn(write.gesture, Card(state.row.shown, state.row.total, false, 0, 0), state.row, 0, 0);
    }
  }

  lemma {:induction false} RunConcat(session: Session, a: seq<Event>, b: seq<Event>)
    ensures Run(session, a + b) == Run(Run(session, a), b)
  {
    if b == [] {
      assert a + b == a;
    } else {
      RunConcat(session, a, b[..|b| - 1]);
      assert (a + b)[..|a + b| - 1] == a + b[..|b| - 1];
    }
  }

  /** The writes up to a passing visit to the target, a read, the writes up to a pair off it, a read. */
  function CaughtPassing(j: nat, k: nat): seq<Event>
    requires j <= k
  {
    (Commits(j) + [Look(0)]) + (Commits(k - j) + [Look(0)])
  }

  /** A read that catches the row at the target empties the list; a later one then draws whatever the row holds. */
  lemma CaughtPassingShowsIt(session: Session, j: nat, k: nat)
    requires OnTarget(session) && j <= k <= |session.pending| && ValueAfter(session, j) == Target(session)
    ensures Drawn(Run(session, CaughtPassing(j, k))) == ValueAfter(session, k)
    ensures WritesAndReads(CaughtPassing(j, k))
  {
    hide Fold, Linked, Moves, Move, EndsWith, Promised, Run, After;
    CommitMany(session, j);
    var first := Run(session, Commits(j));
    var looked := Next(first, Look(0));
    RunOneMore(session, Commits(j), Look(0));
    LookSettles(session.record.entries, session.record.durable.card.shown, Target(session));
    assert looked.record.entries == [];
    CommitMany(looked, k - j);
    ValuesFollowOn(session, first, j, k);
    var second := Run(looked, Commits(k - j));
    RunOneMore(looked, Commits(k - j), Look(0));
    RunConcat(session, Commits(j) + [Look(0)], Commits(k - j) + [Look(0)]);
    NothingToFold(second.row.shown);
  }

  lemma NothingToFold(shown: Shown)
    ensures Fold([], shown) == (shown, [])
  {
  }

  lemma RunOneMore(session: Session, events: seq<Event>, event: Event)
    ensures Run(session, events + [event]) == Next(Run(session, events), event)
  {
    assert (events + [event])[..|events|] == events;
  }

  lemma ValuesFollowOn(session: Session, state: Session, j: nat, k: nat)
    requires j <= k <= |session.pending|
    requires state.pending == session.pending[j..] && state.row.total == session.row.total
    requires state.row.shown == ValueAfter(session, j)
    ensures k - j <= |state.pending| && ValueAfter(state, k - j) == ValueAfter(session, k)
  {
    var total := session.row.total;
    assert session.pending[..k] == session.pending[..j] + session.pending[j..][..k - j];
    AfterConcat(session.row.shown, total, session.pending[..j], session.pending[j..][..k - j]);
  }

  lemma {:induction false} AfterConcat(shown: Shown, total: Option<real>, a: seq<Write>, b: seq<Write>)
    ensures After(shown, total, a + b) == After(After(shown, total, a), total, b)
    decreases |a|
  {
    if a == [] {
      assert a + b == b;
    } else {
      assert (a + b)[1..] == a[1..] + b;
      AfterConcat(Move(a[0].gesture, shown, total), total, a[1..], b);
    }
  }

  /**
   * Whatever order the pending writes and the reads come in, the card draws only where the writes lead, if and only if
   * they do not pass through that very pair before their last move: +1 then -1 is the case that fails.
   */
  lemma CardStaysOnTargetExactlyWhen(session: Session)
    requires OnTarget(session)
    ensures SettlesOnce(session) <==>
      forall events | WritesAndReads(events) :: Drawn(Run(session, events)) == Target(session)
  {
    if SettlesOnce(session) {
      forall events | WritesAndReads(events) ensures Drawn(Run(session, events)) == Target(session) {
        SettlingSessionsStayOnTarget(session, events);
      }
    } else {
      var j, k :| 0 <= j <= k <= |session.pending| && ValueAfter(session, j) == Target(session)
                  && ValueAfter(session, k) != Target(session);
      CaughtPassingShowsIt(session, j, k);
    }
  }

  /**
   * And so with what is promised: whatever order the pending writes and the reads come in, the pair shown for the next
   * press, whatever gesture it is, is the pair its write stores, if and only if the pending writes settle once.
   */
  lemma NextPromiseIsKeptWheneverItComesExactlyWhen(session: Session)
    requires OnTarget(session)
    ensures SettlesOnce(session) <==>
      forall events, gesture | WritesAndReads(events) :: KeepsNextPromise(Run(session, events), gesture)
  {
    CardStaysOnTargetExactlyWhen(session);
    forall events | WritesAndReads(events)
      ensures (forall gesture :: KeepsNextPromise(Run(session, events), gesture))
        <==> Drawn(Run(session, events)) == Target(session)
    {
      RunKeepsSound(session, events);
      NextPromiseIsKeptExactlyWhen(Run(session, events));
      TargetStays(session, events);
    }
    if forall events, gesture | WritesAndReads(events) :: KeepsNextPromise(Run(session, events), gesture) {
      forall events | WritesAndReads(events) ensures Drawn(Run(session, events)) == Target(session) {
        assert forall gesture :: KeepsNextPromise(Run(session, events), gesture);
      }
    }
  }

  /** Writes that commit and reads leave the target where it is. */
  lemma {:induction false} TargetStays(session: Session, events: seq<Event>)
    requires WritesAndReads(events)
    ensures Target(Run(session, events)) == Target(session)
  {
    if events != [] {
      TargetStays(session, events[..|events| - 1]);
      var state := Run(session, events[..|events| - 1]);
      if events[|events| - 1].Commit? && state.pending != [] {
        CommitShiftsValues(state, events[|events| - 1].at, 0);
      }
    }
  }

  // ----- The inputs that fail -----

  /** A row at chapter 5 of no known total, being watched, just drawn. */
  ghost predicate AtFive(session: Session) {
    Fresh(session) && session.row == Card(Shown(5.0, 0), None, false, 0, 0)
  }

  lemma ShownAlone(entry: Entry)
    ensures Fold([], entry.base) == (entry.base, [])
    ensures Fold([entry], entry.base) == (entry.projected, [entry])
  {
    var none, one: seq<Entry> := [], [entry];
    assert one[..|one| - 1] == none && none + [entry] == one;
  }

  lemma ShownTogether(a: Entry, b: Entry)
    requires a.projected == b.base
    ensures Fold([a, b], a.base) == (b.projected, [a, b])
  {
    ShownAlone(a);
    var one, both := [a], [a, b];
    assert both[..|both| - 1] == one && one + [b] == both;
  }

  /**
   * A cancelled pair breaks a promise. At chapter 5: +1, -1, a read (the list is emptied with both writes pending), the
   * first write, a read that draws 6, +1 promised as 7, the second write; the third write stores 6.
   */
  lemma ACancelledPairBreaksAPromise(session: Session)
    requires AtFive(session)
    ensures var events := [Press(CapPlus, 0), Press(CapMinus, 0), Look(1), Commit(0), Look(2), Press(CapPlus, 0), Commit(0)];
      var state := Run(session, events);
      && |state.pending| == 1 && state.pending[0].promised == Shown(7.0, 0)
      && Next(state, Commit(0)).row.shown == Shown(6.0, 0)
  {
    var events := [Press(CapPlus, 0), Press(CapMinus, 0), Look(1), Commit(0), Look(2), Press(CapPlus, 0), Commit(0)];
    var id := session.current + 1;
    var up, down := Entry(id, Shown(5.0, 0), Shown(6.0, 0)), Entry(id + 1, Shown(6.0, 0), Shown(5.0, 0));
    var s1 := Next(session, events[0]);
    var s2 := Next(s1, events[1]);
    var s3 := Next(s2, events[2]);
    var s4 := Next(s3, events[3]);
    var s5 := Next(s4, events[4]);
    var s6 := Next(s5, events[5]);
    ShownAlone(up);
    assert s1.record.entries == [up];
    ShownTogether(up, down);
    assert s2.record.entries == [up, down];
    assert s3.record.entries == [];
    ShownAlone(down);
    assert s4.row.shown == Shown(6.0, 0) && s5.record == Record(DurableRow(2, s4.row), []);
    assert |s6.pending| == 2 && s6.pending[0].gesture == CapMinus && s6.pending[1].promised == Shown(7.0, 0);
    hide Next;
    RunOne(session, events);
    RunOne(s1, events[1..]);
    RunOne(s2, events[2..]);
    RunOne(s3, events[3..]);
    RunOne(s4, events[4..]);
    RunOne(s5, events[5..]);
    RunOne(s6, events[6..]);
    assert events[7..] == [];
  }

  /**
   * An expired deadline breaks the next promise. At chapter 5: +1 shown as 6, its deadline expires and the card draws 5
   * again, +1 promised as 6; the first write stores 6 after all, and the second stores 7.
   */
  lemma AnExpiredDeadlineBreaksAPromise(session: Session)
    requires AtFive(session)
    ensures var events := [Press(CapPlus, 0), Expire(0), Press(CapPlus, 0), Commit(0)];
      var state := Run(session, events);
      && state.row.shown == Shown(6.0, 0)
      && |state.pending| == 1 && state.pending[0].promised == Shown(6.0, 0)
      && Next(state, Commit(0)).row.shown == Shown(7.0, 0)
  {
    var events := [Press(CapPlus, 0), Expire(0), Press(CapPlus, 0), Commit(0)];
    var id := session.current + 1;
    var up := Entry(id, Shown(5.0, 0), Shown(6.0, 0));
    var s1 := Next(session, events[0]);
    var s2 := Next(s1, events[1]);
    var s3 := Next(s2, events[2]);
    ShownAlone(up);
    assert s1.record.entries == [up] && IndexOf([up], id) == 0;
    assert s2.record.entries == [];
    assert |s3.pending| == 2 && s3.pending[1].promised == Shown(6.0, 0);
    hide Next;
    RunOne(session, events);
    RunOne(s1, events[1..]);
    RunOne(s2, events[2..]);
    RunOne(s3, events[3..]);
    assert events[4..] == [];
  }

  /** A failed write breaks the promise behind it. At chapter 5: +1, +1 promised as 7, the first write fails; the second stores 6. */
  lemma AFailedWriteBreaksThePromiseBehindIt(session: Session)
    requires AtFive(session)
    ensures var events := [Press(CapPlus, 0), Press(CapPlus, 0), Fail];
      var state := Run(session, events);
      && |state.pending| == 1 && state.pending[0].promised == Shown(7.0, 0)
      && Next(state, Commit(0)).row.shown == Shown(6.0, 0)
  {
    var events := [Press(CapPlus, 0), Press(CapPlus, 0), Fail];
    var id := session.current + 1;
    var up := Entry(id, Shown(5.0, 0), Shown(6.0, 0));
    var s1 := Next(session, events[0]);
    var s2 := Next(s1, events[1]);
    ShownAlone(up);
    assert s1.record.entries == [up];
    assert |s2.pending| == 2 && s2.pending[1].promised == Shown(7.0, 0);
    hide Next;
    RunOne(session, events);
    RunOne(s1, events[1..]);
    RunOne(s2, events[2..]);
    assert events[3..] == [];
  }

  lemma RunOne(session: Session, events: seq<Event>)
    requires events != []
    ensures Run(session, events) == Run(Next(session, events[0]), events[1..])
  {
    RunConcat(session, [events[0]], events[1..]);
    assert events == [events[0]] + events[1..];
    assert [events[0]][..0] == [];
  }

  lemma RunPrefix(session: Session, events: seq<Event>, k: nat)
    requires k < |events|
    ensures Run(session, events[..k + 1]) == Next(Run(session, events[..k]), events[k])
  {
    assert events[..k + 1] == events[..k] + [events[k]];
    RunOneMore(session, events[..k], events[k]);
  }
}
