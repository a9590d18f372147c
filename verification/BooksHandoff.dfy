/**
 One document's journal between Inventory and Books, as a state machine: the request that
 posts it, any number of dispatchers that redeliver, the sweep that repairs, an operator who
 replays, and a crash anywhere.
 */
module BooksHandoff {
  import opened Outcomes
  import T = HandoffTracker

  datatype DocStatus = Draft | Failed | Posted | Reversed

  /**
   A row of the outbox and its failed attempts. Queued rows become due; after twenty failures a
   row is dead, as an abandoned one is.
   */
  datatype Event =
    | NoEvent | Queued(due: bool, attempts: nat)
    | Acked(attempts: nat) | Abandoned(attempts: nat) | Exhausted(attempts: nat)

  /** Books applies an event once by its id. A reversal of nothing undoes nothing. */
  datatype Books = Books(seenPosted: bool, seenReversed: bool, journals: nat)

  datatype Answer = Took | Refused | Silence

  /** Where the posting request stands. Crashing is being Idle again. */
  datatype Worker =
    | Idle | Committed | Sending(attempts: nat) | Answered(answer: Answer, attempts: nat) | Completing | Taken
    | Declined(refused: bool) | Reversing(refused: bool) | ReverseFailed | Undone(refused: bool) | Abandoning

  datatype Stage = Read | Heard(answer: Answer) | Closing | Done

  /** A dispatcher's delivery of one row, with the attempts the row showed when it was read. */
  datatype Flight = Flight(posting: bool, attempts: nat, stage: Stage)

  datatype State = State(
    doc: DocStatus, posted: Event, reversed: Event, handoff: Option<T.HandoffRow>, books: Books, worker: Worker,
    flights: seq<Flight>, sweeping: bool)

  const START := State(Draft, NoEvent, NoEvent, None, Books(false, false, 0), Idle, [], false)

  const MAX_ATTEMPTS := 20

  /** One delivery: whether it arrives, whether Books would refuse it, whether the reply comes back. */
  datatype Meeting = Meeting(reaches: bool, refuses: bool, replies: bool)

  /** Writes of the tracker and the outbox can be lost one by one: written says whether this one was. */
  datatype Step =
    | Post(waits: bool, commits: bool)
    | OutboxUnreadable
    | ReadRow
    | Send(meeting: Meeting)
    | RecordAnswer(written: bool)
    | CompleteForEvent(written: bool)
    | RecordAccepted(written: bool)
    | ClaimReversal(written: bool)
    | UndoPost(ok: bool)
    | RecordReversed(written: bool)
    | RecordReversalFailed(written: bool, now: int)
    | AbandonEvents(written: bool)
    | Crash
    | ReverseByHand
    | ReadDue(posting: bool)
    | FlightSends(flight: nat, meeting: Meeting)
    | FlightRecords(flight: nat, written: bool)
    | FlightCompletes(flight: nat, written: bool)
    | FlightDies(flight: nat)
    | Replay(posting: bool)
    | SweepReads(now: int)
    | SweepReverses
    | SweepRecordsReversed(written: bool)
    | SweepRecordsFailure(written: bool, now: int)
    | TimePasses

  // ------------------------------------------------------------------ Books' side

  function Applied(b: Books, posting: bool): Books
  {
    if posting then (if b.seenPosted then b else b.(seenPosted := true, journals := b.journals + 1))
    else if b.seenReversed then b
    else b.(seenReversed := true, journals := if b.journals > 0 then b.journals - 1 else 0)
  }

  predicate Knows(b: Books, posting: bool) { if posting then b.seenPosted else b.seenReversed }

  /** Books refuses only an event it has not applied; one it knows it takes again without effect. */
  predicate Refuses(b: Books, posting: bool, m: Meeting) { m.refuses && !Knows(b, posting) }

  function AfterMeeting(b: Books, posting: bool, m: Meeting): Books
  {
    if m.reaches && !Refuses(b, posting, m) then Applied(b, posting) else b
  }

  function AnswerOf(b: Books, posting: bool, m: Meeting): Answer
  {
    if !m.reaches || !m.replies then Silence else if Refuses(b, posting, m) then Refused else Took
  }

  function AttemptsOf(e: Event): nat { if e.NoEvent? then 0 else e.attempts }

  /** recordDelivery(), over the attempts read before the row was sent, whatever the row says by now. */
  function Recorded(e: Event, a: Answer, attempts: nat, written: bool): Event
  {
    if !written then e
    else if a == Took then Acked(attempts + 1)
    else if MAX_ATTEMPTS <= attempts + 1 then Exhausted(attempts + 1)
    else Queued(false, attempts + 1)
  }

  /** What came back of one delivery: the transport's verdict, and the body's error code and per-event statuses. */
  datatype Reply = Reply(accepted: bool, status: int, body: Option<Body>)

  datatype Body = Body(errorCode: string, events: seq<string>)

  /** Did Books answer that it applied nothing? Only an answer says so; silence and a server fault do not. */
  method BooksHoldsNoJournal(r: Reply) returns (none: bool)
    ensures none <==> !r.accepted && (400 <= r.status < 500
                      || (r.body.Some?
                          && (r.body.value.errorCode == "event_apply_failed" || "failed" in r.body.value.events)))
  {
    if r.accepted {
      return false;
    }
    if 400 <= r.status && r.status < 500 {
      return true;
    }
    if r.body.None? {
      return false;
    }
    if r.body.value.errorCode == "event_apply_failed" {
      return true;
    }
    var events := r.body.value.events;
    for i := 0 to |events|
      invariant "failed" !in events[..i]
    {
      if events[i] == "failed" {
        return true;
      }
    }
    assert events[..|events|] == events;
    none := false;
  }

  // ------------------------------------------------------------------ Inventory's side

  function Row(s: State, f: T.HandoffRow -> T.HandoffRow, written: bool): Option<T.HandoffRow>
  {
    if written && s.handoff.Some? then Some(f(s.handoff.value)) else s.handoff
  }

  function MovedTo(to: T.HandoffState): T.HandoffRow -> T.HandoffRow { (r: T.HandoffRow) => T.Moved(r, to) }

  function FailedAt(now: int): T.HandoffRow -> T.HandoffRow { (r: T.HandoffRow) => T.Failed(r, T.ReversalPending, now) }

  function Closed(): T.HandoffRow -> T.HandoffRow { (r: T.HandoffRow) => T.Completed(r) }

  /** reverse(): a document already reversed is left alone, a posted one gets its reversal event. */
  function ReversedDoc(s: State): State
  {
    if s.doc == Posted then s.(doc := Reversed, reversed := Queued(true, 0)) else s
  }

  function Retired(e: Event): Event { if e.Queued? then Abandoned(e.attempts) else e }

  predicate DueForRepair(s: State, now: int) { s.handoff.Some? && T.IsDue(s.handoff.value, now) }

  /** The request that posts the document. */
  function Requested(s: State, step: Step): State
  {
    match step
    case Post(waits, commits) =>
      if s.worker != Idle || (s.doc != Draft && s.doc != Failed) then s
      else if !commits then s.(doc := Failed)
      else s.(doc := Posted, posted := Queued(true, 0), handoff := if waits then Some(T.Claimed(1)) else None,
              worker := if waits then Committed else Idle)
    case OutboxUnreadable => if s.worker == Committed then s.(worker := Declined(true)) else s
    case ReadRow =>
      if s.worker != Committed then s
      else s.(worker := if s.posted.Acked? then Taken else Sending(AttemptsOf(s.posted)))
    case Send(m) =>
      if !s.worker.Sending? then s
      else s.(books := AfterMeeting(s.books, true, m),
              worker := Answered(AnswerOf(s.books, true, m), s.worker.attempts))
    case RecordAnswer(written) =>
      if !s.worker.Answered? then s
      else s.(posted := Recorded(s.posted, s.worker.answer, s.worker.attempts, written),
              worker := if s.worker.answer == Took then Completing else Declined(s.worker.answer == Refused))
    case CompleteForEvent(written) =>
      if s.worker == Completing then s.(handoff := Row(s, Closed(), written), worker := Taken) else s
    case RecordAccepted(written) =>
      if s.worker == Taken then s.(handoff := Row(s, MovedTo(T.Accepted), written), worker := Idle) else s
    case _ => s
  }

  /** The undo of a post Books would not take. */
  function Unposted(s: State, step: Step): State
  {
    match step
    case ClaimReversal(written) =>
      if !s.worker.Declined? then s
      else s.(handoff := Row(s, MovedTo(T.ReversalPending), written), worker := Reversing(s.worker.refused))
    case UndoPost(ok) =>
      if !s.worker.Reversing? then s
      else if ok || s.doc == Reversed then ReversedDoc(s).(worker := Undone(s.worker.refused))
      else s.(worker := ReverseFailed)
    case RecordReversed(written) =>
      if !s.worker.Undone? then s
      else s.(handoff := Row(s, MovedTo(T.Reversed), written), worker := if s.worker.refused then Abandoning else Idle)
    case RecordReversalFailed(written, now) =>
      if s.worker == ReverseFailed then s.(handoff := Row(s, FailedAt(now), written), worker := Idle) else s
    case AbandonEvents(written) =>
      if s.worker != Abandoning then s
      else if written then s.(posted := Retired(s.posted), reversed := Retired(s.reversed), worker := Idle)
      else s.(worker := Idle)
    case _ => s
  }

  function EventOf(s: State, posting: bool): Event { if posting then s.posted else s.reversed }

  function WithEvent(s: State, posting: bool, e: Event): State
  {
    if posting then s.(posted := e) else s.(reversed := e)
  }

  predicate At(s: State, i: nat, stage: Stage) { i < |s.flights| && s.flights[i].stage == stage }

  function Onward(s: State, i: nat, stage: Stage): State
    requires i < |s.flights|
  {
    s.(flights := s.flights[i := s.flights[i].(stage := stage)])
  }

  /** Dispatchers: each reads due rows, sends what it read later, and records over whatever the row says by then. */
  function Dispatched(s: State, step: Step): State
  {
    match step
    case ReadDue(posting) =>
      var e := EventOf(s, posting);
      if e.Queued? && e.due then s.(flights := s.flights + [Flight(posting, e.attempts, Read)]) else s
    case FlightSends(i, m) =>
      if !At(s, i, Read) then s
      else
        var posting := s.flights[i].posting;
        Onward(s, i, Heard(AnswerOf(s.books, posting, m))).(books := AfterMeeting(s.books, posting, m))
    case FlightRecords(i, written) =>
      if !(i < |s.flights| && s.flights[i].stage.Heard?) then s
      else
        var f, a := s.flights[i], s.flights[i].stage.answer;
        WithEvent(Onward(s, i, if a == Took && f.posting then Closing else Done), f.posting,
                  Recorded(EventOf(s, f.posting), a, f.attempts, written))
    case FlightCompletes(i, written) =>
      if At(s, i, Closing) then Onward(s, i, Done).(handoff := Row(s, Closed(), written)) else s
    case FlightDies(i) => if i < |s.flights| then Onward(s, i, Done) else s
    case _ => s
  }

  /** Everything else: a crash, another user, an operator, the repair sweep, the clock. */
  function Around(s: State, step: Step): State
  {
    match step
    case Crash => s.(worker := Idle)
    case ReverseByHand => ReversedDoc(s)
    case Replay(posting) =>
      var e := EventOf(s, posting);
      if e.NoEvent? then s else WithEvent(s, posting, Queued(true, e.attempts))
    case SweepReads(now) => if DueForRepair(s, now) then s.(sweeping := true) else s
    case SweepReverses => if s.sweeping then ReversedDoc(s) else s
    case SweepRecordsReversed(written) =>
      if s.sweeping && s.doc == Reversed then s.(handoff := Row(s, MovedTo(T.Reversed), written)) else s
    case SweepRecordsFailure(written, now) => if s.sweeping then s.(handoff := Row(s, FailedAt(now), written)) else s
    case TimePasses => s.(posted := Ripe(s.posted), reversed := Ripe(s.reversed))
    case _ => s
  }

  function Ripe(e: Event): Event { if e.Queued? then e.(due := true) else e }

  predicate OfRequest(step: Step)
  {
    step.Post? || step.OutboxUnreadable? || step.ReadRow? || step.Send? || step.RecordAnswer? || step.CompleteForEvent?
    || step.RecordAccepted?
  }

  predicate OfUndo(step: Step)
  {
    step.ClaimReversal? || step.UndoPost? || step.RecordReversed? || step.RecordReversalFailed? || step.AbandonEvents?
  }

  predicate OfDispatch(step: Step)
  {
    step.ReadDue? || step.FlightSends? || step.FlightRecords? || step.FlightCompletes? || step.FlightDies?
  }

  function Next(s: State, step: Step): State
  {
    if OfRequest(step) then Requested(s, step)
    else if OfUndo(step) then Unposted(s, step)
    else if OfDispatch(step) then Dispatched(s, step)
    else Around(s, step)
  }

  function Run(steps: seq<Step>): State
  {
    if steps == [] then START else Next(Run(steps[..|steps| - 1]), steps[|steps| - 1])
  }

  // ------------------------------------------------------------------ what every run keeps

  /** Nothing of a document that did not commit is anywhere. */
  predicate NothingBeforeCommit(s: State)
  {
    s.doc == Draft || s.doc == Failed ==> s == START.(doc := s.doc)
  }

  /** The events the document's status calls for exist, and only its undo retires them. */
  predicate EventsFit(s: State)
  {
    && (s.doc == Posted ==> !s.posted.NoEvent? && !s.posted.Abandoned? && s.reversed.NoEvent?)
    && (s.doc == Reversed ==> !s.posted.NoEvent? && !s.reversed.NoEvent?)
  }

  /** Inventory believes Books only when Books has it. */
  predicate BeliefsHold(s: State)
  {
    && (s.posted.Acked? || s.worker == Completing || s.worker == Taken ==> s.books.seenPosted)
    && (s.worker.Answered? && s.worker.answer == Took ==> s.books.seenPosted)
    && (s.handoff.Some? && s.handoff.value.state == T.Accepted ==> s.books.seenPosted)
    && (s.handoff.Some? && s.handoff.value.state == T.Reversed ==> s.doc == Reversed)
    && (s.reversed.Acked? ==> s.books.seenReversed)
    && (s.worker.Undone? || s.worker == Abandoning ==> s.doc == Reversed)
  }

  predicate BooksCount(s: State)
  {
    && (s.books.seenReversed ==> s.doc == Reversed)
    && (!s.books.seenPosted ==> s.books.journals == 0)
    && (s.books.seenPosted && !s.books.seenReversed ==> s.books.journals == 1)
    && s.books.journals <= 1
  }

  /** Until the request has declined, the row is waiting or already closed by a delivery. */
  predicate NotYetDecided(s: State)
  {
    s.handoff.Some?
    && (s.worker.Committed? || s.worker.Sending? || s.worker.Answered? || s.worker.Completing? || s.worker.Taken?
        || s.worker.Declined?) ==>
      s.handoff.value.state == T.AwaitingBooks || s.handoff.value.state == T.Accepted
  }

  /** A delivery is of an event that was written, and what it heard is so. */
  predicate FlightOk(s: State, f: Flight)
  {
    && (s.doc == Reversed || (s.doc == Posted && f.posting))
    && (f.stage == Heard(Took) || f.stage == Closing ==> Knows(s.books, f.posting))
    && (f.stage == Closing ==> f.posting)
  }

  predicate FlightsOk(s: State) { forall i :: 0 <= i < |s.flights| ==> FlightOk(s, s.flights[i]) }

  predicate Decided(s: State)
  {
    s.handoff.Some? && (s.handoff.value.state == T.ReversalPending || s.handoff.value.state == T.Reversed)
  }

  /** A row once read for repair is one whose reversal was decided. */
  predicate SweepsDecided(s: State) { s.sweeping ==> Decided(s) }

  predicate Inv(s: State)
  {
    && NothingBeforeCommit(s) && EventsFit(s) && BeliefsHold(s) && BooksCount(s) && NotYetDecided(s) && FlightsOk(s)
    && SweepsDecided(s)
  }

  lemma RequestKeeps(s: State, step: Step)
    requires Inv(s)
    ensures Inv(Requested(s, step))
  {
  }

  lemma UndoKeeps(s: State, step: Step)
    requires Inv(s)
    ensures Inv(Unposted(s, step))
  {
  }

  lemma SendKeeps(s: State, i: nat, m: Meeting)
    requires Inv(s)
    ensures Inv(Dispatched(s, FlightSends(i, m)))
  {
    if At(s, i, Read) {
      assert FlightOk(s, s.flights[i]);
    }
  }

  lemma RecordKeeps(s: State, i: nat, written: bool)
    requires Inv(s)
    ensures Inv(Dispatched(s, FlightRecords(i, written)))
  {
    if i < |s.flights| {
      assert FlightOk(s, s.flights[i]);
    }
  }

  lemma DispatchKeeps(s: State, step: Step)
    requires Inv(s)
    ensures Inv(Dispatched(s, step))
  {
    match step {
      case FlightSends(i, m) => SendKeeps(s, i, m);
      case FlightRecords(i, written) => RecordKeeps(s, i, written);
      case _ =>
    }
  }

  lemma RestKeeps(s: State, step: Step)
    requires Inv(s)
    ensures Inv(Around(s, step))
  {
  }

  lemma StepKeeps(s: State, step: Step)
    requires Inv(s)
    ensures Inv(Next(s, step))
  {
    RequestKeeps(s, step);
    UndoKeeps(s, step);
    DispatchKeeps(s, step);
    RestKeeps(s, step);
  }

  lemma {:induction false} EveryRunKeeps(steps: seq<Step>)
    ensures Inv(Run(steps))
  {
    if steps != [] {
      EveryRunKeeps(steps[..|steps| - 1]);
      StepKeeps(Run(steps[..|steps| - 1]), steps[|steps| - 1]);
    }
  }

  // ------------------------------------------------------------------ safety, over every interleaving

  /** Books never holds a journal, nor has even seen an event, of a document that did not commit. */
  lemma JournalsAreOfCommittedDocuments(steps: seq<Step>)
    ensures var s := Run(steps);
      s.books.seenPosted || s.books.seenReversed || 0 < s.books.journals ==> s.doc == Posted || s.doc == Reversed
  {
    EveryRunKeeps(steps);
  }

  predicate Undelivered(e: Event) { e.Queued? || e.Exhausted? }

  predicate Unsettled(row: T.HandoffRow) { row.state == T.AwaitingBooks || row.state == T.ReversalPending }

  predicate RowInUse(s: State) { s.handoff.Some? ==> s.handoff.value.state != T.Abandoned }

  lemma RowStaysInUse(s: State, step: Step)
    requires RowInUse(s)
    ensures RowInUse(Next(s, step))
  {
  }

  lemma {:induction false} HandoffIsNeverAbandoned(steps: seq<Step>)
    ensures RowInUse(Run(steps))
  {
    if steps != [] {
      HandoffIsNeverAbandoned(steps[..|steps| - 1]);
      RowStaysInUse(Run(steps[..|steps| - 1]), steps[|steps| - 1]);
    }
  }

  /**
   A posted document without a journal leaves both traces on disk: an undelivered event and, if
   it was waited for, an unsettled row.
   */
  lemma MissingJournalIsOnDisk(steps: seq<Step>)
    requires Run(steps).doc == Posted && Run(steps).books.journals == 0
    ensures Undelivered(Run(steps).posted)
    ensures Run(steps).handoff.Some? ==> Unsettled(Run(steps).handoff.value)
  {
    EveryRunKeeps(steps);
    HandoffIsNeverAbandoned(steps);
  }

  lemma DecidedStays(s: State, step: Step)
    requires Inv(s) && Decided(s)
    ensures Decided(Next(s, step))
  {
  }

  lemma {:induction false} RunSplits(steps: seq<Step>, more: seq<Step>)
    requires more != []
    ensures Run(steps + more) == Next(Run(steps + more[..|more| - 1]), more[|more| - 1])
  {
    assert (steps + more)[..|steps + more| - 1] == steps + more[..|more| - 1];
  }

  /** No delivery, completion or acceptance ever takes back a reversal once it is decided. */
  lemma {:induction false} DecidedForever(steps: seq<Step>, more: seq<Step>)
    requires Decided(Run(steps))
    ensures Decided(Run(steps + more))
  {
    if more == [] {
      assert steps + more == steps;
    } else {
      DecidedForever(steps, more[..|more| - 1]);
      EveryRunKeeps(steps + more[..|more| - 1]);
      RunSplits(steps, more);
      DecidedStays(Run(steps + more[..|more| - 1]), more[|more| - 1]);
    }
  }

  // ------------------------------------------------------------------ agreement

  /** Books holds a journal whose reversal it does not have, and the reversal's row is retired. */
  predicate Stranded(s: State) { s.books.seenPosted && !s.books.seenReversed && s.reversed.Abandoned? }

  /** A delivery of the event reaches Books in this step, read from its row at whatever time before. */
  predicate Lands(s: State, step: Step, posting: bool)
  {
    || (step.Send? && posting && s.worker.Sending? && step.meeting.reaches && !Refuses(s.books, true, step.meeting))
    || (step.FlightSends? && At(s, step.flight, Read) && s.flights[step.flight].posting == posting
        && step.meeting.reaches && !Refuses(s.books, posting, step.meeting))
  }

  /** The undo retires a reversal that Books needs, or a posting lands whose reversal was retired. */
  predicate Strands(s: State, step: Step)
  {
    && !s.books.seenReversed
    && ((step == AbandonEvents(true) && s.worker == Abandoning && s.reversed.Queued? && s.books.seenPosted)
        || (s.reversed.Abandoned? && Lands(s, step, true)))
  }

  /** A reversal read before it was retired lands or has its failure recorded, or an operator replays it. */
  predicate Frees(s: State, step: Step)
  {
    || Lands(s, step, false)
    || step == Replay(false)
    || (step.FlightRecords? && step.written && step.flight < |s.flights| && s.flights[step.flight].stage.Heard?
        && !s.flights[step.flight].posting)
  }

  /** Some step left a journal behind a retired reversal, and none since brought the reversal back. */
  predicate LeftStranded(steps: seq<Step>)
  {
    steps != [] &&
      var s, step := Run(steps[..|steps| - 1]), steps[|steps| - 1];
      Strands(s, step) || (LeftStranded(steps[..|steps| - 1]) && !Frees(s, step))
  }

  /** Books applies the posting behind the reversal that was to undo it. */
  predicate Overtakes(s: State, step: Step)
  {
    s.books.seenReversed && !s.books.seenPosted && Next(s, step).books.seenPosted
  }

  predicate Overtaken(steps: seq<Step>)
  {
    steps != [] && (Overtaken(steps[..|steps| - 1]) || Overtakes(Run(steps[..|steps| - 1]), steps[|steps| - 1]))
  }

  /** With both events applied the journal is left over exactly when they came the wrong way round. */
  predicate LeftoverIsOvertaken(s: State, overtaken: bool)
  {
    overtaken <==> s.books.seenPosted && s.books.seenReversed && s.books.journals == 1
  }

  lemma OvertakingKeeps(s: State, step: Step, overtaken: bool)
    requires Inv(s) && LeftoverIsOvertaken(s, overtaken)
    ensures LeftoverIsOvertaken(Next(s, step), overtaken || Overtakes(s, step))
  {
  }

  /** Retired rows are of a document whose request is over. */
  predicate RetiredIsReversed(s: State) { s.reversed.Abandoned? ==> s.worker == Idle && s.doc == Reversed }

  /** What a step does to a stranded journal, and to one that is not. */
  predicate ToldBy(s: State, step: Step)
  {
    && RetiredIsReversed(Next(s, step))
    && (Stranded(Next(s, step)) <==> Strands(s, step) || (Stranded(s) && !Frees(s, step)))
  }

  lemma RequestTells(s: State, step: Step)
    requires Inv(s) && RetiredIsReversed(s) && OfRequest(step)
    ensures ToldBy(s, step)
  {
  }

  lemma UndoTells(s: State, step: Step)
    requires Inv(s) && RetiredIsReversed(s) && OfUndo(step)
    ensures ToldBy(s, step)
  {
  }

  lemma DispatchTells(s: State, step: Step)
    requires Inv(s) && RetiredIsReversed(s) && OfDispatch(step)
    ensures ToldBy(s, step)
  {
  }

  lemma StrandingTells(s: State, step: Step)
    requires Inv(s) && RetiredIsReversed(s)
    ensures ToldBy(s, step)
  {
    if OfRequest(step) {
      RequestTells(s, step);
    } else if OfUndo(step) {
      UndoTells(s, step);
    } else if OfDispatch(step) {
      DispatchTells(s, step);
    }
  }

  lemma {:induction false} HistoryTells(steps: seq<Step>)
    ensures LeftoverIsOvertaken(Run(steps), Overtaken(steps))
    ensures RetiredIsReversed(Run(steps)) && (LeftStranded(steps) <==> Stranded(Run(steps)))
  {
    if steps != [] {
      var before, step := steps[..|steps| - 1], steps[|steps| - 1];
      HistoryTells(before);
      EveryRunKeeps(before);
      OvertakingKeeps(Run(before), step, Overtaken(before));
      StrandingTells(Run(before), step);
    }
  }

  /** Nothing is in flight and every event is acknowledged or retired. */
  predicate Drained(s: State)
  {
    && s.worker == Idle && !Undelivered(s.posted) && !Undelivered(s.reversed)
    && forall i :: 0 <= i < |s.flights| ==> s.flights[i].stage == Done
  }

  predicate Agrees(s: State) { s.books.journals == if s.doc == Posted then 1 else 0 }

  /**
   Over every run that drains the outbox, Inventory and Books agree on the journal exactly
   when no journal was left behind a retired reversal and Books applied no posting behind its
   reversal.
   */
  lemma AgreesUnlessStrandedOrOvertaken(steps: seq<Step>)
    requires Drained(Run(steps))
    ensures Agrees(Run(steps)) <==> !LeftStranded(steps) && !Overtaken(steps)
  {
    HistoryTells(steps);
    EveryRunKeeps(steps);
  }

  /** A reversal event goes out only while the posting event it follows is acknowledged. */
  predicate SendsInOrder(s: State, step: Step)
  {
    step.FlightSends? && step.flight < |s.flights| && !s.flights[step.flight].posting ==> s.posted.Acked?
  }

  predicate InOrder(steps: seq<Step>)
  {
    steps == [] || (InOrder(steps[..|steps| - 1]) && SendsInOrder(Run(steps[..|steps| - 1]), steps[|steps| - 1]))
  }

  /** In event order a reversal finds the posting applied. */
  predicate Ordered(s: State) { s.books.seenReversed ==> s.books.seenPosted }

  lemma OrderKeeps(s: State, step: Step)
    requires Inv(s) && Ordered(s) && SendsInOrder(s, step)
    ensures Ordered(Next(s, step)) && !Overtakes(s, step)
  {
  }

  lemma {:induction false} InOrderIsNotOvertaken(steps: seq<Step>)
    requires InOrder(steps)
    ensures Ordered(Run(steps)) && !Overtaken(steps)
  {
    if steps != [] {
      InOrderIsNotOvertaken(steps[..|steps| - 1]);
      EveryRunKeeps(steps[..|steps| - 1]);
      OrderKeeps(Run(steps[..|steps| - 1]), steps[|steps| - 1]);
    }
  }

  /** In event order the retirement alone can part them. */
  lemma DrainedAgrees(steps: seq<Step>)
    requires InOrder(steps) && Drained(Run(steps))
    ensures Agrees(Run(steps)) <==> !LeftStranded(steps)
  {
    InOrderIsNotOvertaken(steps);
    AgreesUnlessStrandedOrOvertaken(steps);
  }

  /** No dispatcher reads the document's events while its request is alive, and no operator replays retired ones. */
  predicate LeavesAlone(s: State, step: Step)
  {
    && (step.ReadDue? ==> s.worker == Idle)
    && (step.Replay? ==> !s.reversed.Abandoned?)
  }

  predicate HandsOff(steps: seq<Step>)
  {
    steps == [] || (HandsOff(steps[..|steps| - 1]) && LeavesAlone(Run(steps[..|steps| - 1]), steps[|steps| - 1]))
  }

  /** Then a refusal is still true when it is acted on. */
  predicate RefusalStands(s: State)
  {
    s.worker == Committed || s.worker.Sending? || (s.worker.Answered? && s.worker.answer == Refused)
    || s.worker == Declined(true) || s.worker == Reversing(true) || s.worker == Undone(true) || s.worker == Abandoning
    ==> !s.books.seenPosted
  }

  /** And once it is acted on, nothing of the document can move again. */
  predicate RetiredIsStill(s: State)
  {
    s.reversed.Abandoned? ==> s.worker == Idle && s.flights == [] && !s.books.seenPosted && !s.posted.Queued?
  }

  predicate Alone(s: State)
  {
    RefusalStands(s) && (s.worker != Idle ==> s.flights == []) && RetiredIsStill(s)
  }

  lemma AloneInRequest(s: State, step: Step)
    requires Inv(s) && Alone(s) && OfRequest(step)
    ensures Alone(Next(s, step)) && !Strands(s, step)
  {
  }

  lemma AloneInUndo(s: State, step: Step)
    requires Inv(s) && Alone(s) && OfUndo(step)
    ensures Alone(Next(s, step)) && !Strands(s, step)
  {
  }

  lemma AloneInDispatch(s: State, step: Step)
    requires Inv(s) && Alone(s) && LeavesAlone(s, step) && OfDispatch(step)
    ensures Alone(Next(s, step)) && !Strands(s, step)
  {
  }

  lemma AloneAround(s: State, step: Step)
    requires Inv(s) && Alone(s) && LeavesAlone(s, step) && !OfRequest(step) && !OfUndo(step) && !OfDispatch(step)
    ensures Alone(Next(s, step)) && !Strands(s, step)
  {
  }

  lemma StaysAlone(s: State, step: Step)
    requires Inv(s) && Alone(s) && LeavesAlone(s, step)
    ensures Alone(Next(s, step)) && !Strands(s, step)
  {
    if OfRequest(step) {
      AloneInRequest(s, step);
    } else if OfUndo(step) {
      AloneInUndo(s, step);
    } else if OfDispatch(step) {
      AloneInDispatch(s, step);
    } else {
      AloneAround(s, step);
    }
  }

  lemma {:induction false} HandsOffStrandsNothing(steps: seq<Step>)
    requires HandsOff(steps)
    ensures Alone(Run(steps)) && !LeftStranded(steps)
  {
    if steps != [] {
      HandsOffStrandsNothing(steps[..|steps| - 1]);
      EveryRunKeeps(steps[..|steps| - 1]);
      StaysAlone(Run(steps[..|steps| - 1]), steps[|steps| - 1]);
    }
  }

  /** Crashes, lost replies, lost writes, redelivery and repair together never leave the two sides apart. */
  lemma HandsOffAgrees(steps: seq<Step>)
    requires InOrder(steps) && HandsOff(steps) && Drained(Run(steps))
    ensures Agrees(Run(steps))
  {
    HandsOffStrandsNothing(steps);
    DrainedAgrees(steps);
  }

  // ------------------------------------------------------------------ what each actor gets done

  /** Books counts a posting once and takes one back once; what it knows it takes again, without effect. */
  lemma BooksAppliesOnce(b: Books, posting: bool, m: Meeting)
    ensures Knows(b, posting) ==> AfterMeeting(b, posting, m) == b && AnswerOf(b, posting, m) != Refused
    ensures !Knows(b, posting) && m.reaches && !m.refuses ==>
      var b' := AfterMeeting(b, posting, m);
      && Knows(b', posting) && (Knows(b', !posting) <==> Knows(b, !posting))
      && b'.journals == if posting then b.journals + 1 else if 0 < b.journals then b.journals - 1 else 0
    ensures !m.reaches || (m.refuses && !Knows(b, posting)) ==> AfterMeeting(b, posting, m) == b
  {
  }

  /** The document's handoff row stands in this state, closed. */
  predicate RowClosed(s: State, to: T.HandoffState)
  {
    s.handoff.Some? && s.handoff.value.state == to && s.handoff.value.completed
  }

  /** On every run a repair that is due takes the posted document back, with its event queued and its row closed. */
  lemma SweepRepairs(steps: seq<Step>, s: State, now: int)
    requires s == Run(steps) && DueForRepair(s, now) && s.doc == Posted
    ensures var read := Next(s, SweepReads(now));
      var back := Next(read, SweepReverses);
      var told := Next(back, SweepRecordsReversed(true));
      && told.doc == Reversed && told.reversed == Queued(true, 0) && RowClosed(told, T.Reversed)
      && told.posted == s.posted && told.books == s.books
  {
    EveryRunKeeps(steps);
  }

  /** A repair that fails leaves the document as it was, one more failure on its row. */
  lemma SweepTriesAgain(steps: seq<Step>, s: State, now: int)
    requires s == Run(steps) && DueForRepair(s, now)
    ensures var told := Next(Next(s, SweepReads(now)), SweepRecordsFailure(true, now));
      && told.doc == s.doc && told.reversed == s.reversed && told.handoff.Some?
      && told.handoff.value.state == T.ReversalPending
      && told.handoff.value.attempts == s.handoff.value.attempts + 1
  {
  }

  /** On every run the request undoes a post Books declined: reversed, its event queued, its row closed. */
  lemma RequestUndoes(steps: seq<Step>, s: State)
    requires s == Run(steps) && s.worker.Declined? && s.doc == Posted && s.handoff.Some?
    ensures var claimed := Next(s, ClaimReversal(true));
      var back := Next(claimed, UndoPost(true));
      var told := Next(back, RecordReversed(true));
      && claimed.handoff.value.state == T.ReversalPending && claimed.doc == Posted
      && told.doc == Reversed && told.reversed == Queued(true, 0) && told.posted == s.posted
         && RowClosed(told, T.Reversed)
      && told.worker == if s.worker.refused then Abandoning else Idle
  {
    EveryRunKeeps(steps);
  }

  /** Where Books refused, what is still queued is then retired, and nothing else. */
  lemma RequestRetires(s: State)
    requires s.worker == Abandoning
    ensures var s' := Next(s, AbandonEvents(true));
      && s'.worker == Idle && s'.doc == s.doc && s'.books == s.books
      && s'.posted == (if s.posted.Queued? then Abandoned(s.posted.attempts) else s.posted)
      && s'.reversed == (if s.reversed.Queued? then Abandoned(s.reversed.attempts) else s.reversed)
  {
  }

  /** An undo that dies once it is decided leaves its row due at once; one that fails, after the back-off. */
  lemma FailedUndoIsDue(steps: seq<Step>, s: State, now: int, later: int)
    requires s == Run(steps) && s.worker.Declined? && s.handoff.Some? && s.handoff.value.attempts == 0
    ensures var claimed := Next(s, ClaimReversal(true));
      var failed := Next(Next(claimed, UndoPost(false)), RecordReversalFailed(true, now));
      && DueForRepair(Next(claimed, Crash), later)
      && (s.doc == Posted ==> failed.doc == Posted && (DueForRepair(failed, later) <==> now + 30 <= later))
  {
    T.BackoffDoublesThenHolds(1);
  }

  /** What Books makes of the request's delivery decides what it does next, and what its row says. */
  lemma AnswerDecides(steps: seq<Step>, s: State, m: Meeting)
    requires s == Run(steps) && s.worker == Committed && s.posted.Queued? && !s.books.seenPosted
    ensures var heard := Next(Next(s, ReadRow), Send(m));
      && heard.books == (if m.reaches && !m.refuses then s.books.(seenPosted := true, journals := 1) else s.books)
      && heard.worker
         == Answered(if !m.reaches || !m.replies then Silence else if m.refuses then Refused else Took,
                     s.posted.attempts)
  {
    EveryRunKeeps(steps);
  }

  lemma AnswerIsRecorded(s: State, answer: Answer, attempts: nat)
    requires s.worker == Answered(answer, attempts)
    ensures var s' := Next(s, RecordAnswer(true));
      && s'.worker == (if answer == Took then Completing else Declined(answer == Refused))
      && s'.posted == (if answer == Took then Acked(attempts + 1)
                       else if 20 <= attempts + 1 then Exhausted(attempts + 1) else Queued(false, attempts + 1))
  {
  }

  /** A request that was taken closes its row accepted. */
  lemma RequestCompletes(steps: seq<Step>, s: State)
    requires s == Run(steps) && s.worker == Completing && s.handoff.Some?
    ensures var s' := Next(Next(s, CompleteForEvent(true)), RecordAccepted(true));
      s'.doc == s.doc && s'.posted == s.posted && s'.books == s.books && s'.worker == Idle && RowClosed(s', T.Accepted)
  {
    EveryRunKeeps(steps);
  }

  /** A document that commits is posted with its event due; one that does not is failed, and nothing else. */
  lemma PostCommits(steps: seq<Step>, s: State, waits: bool)
    requires s == Run(steps) && s.worker == Idle && (s.doc == Draft || s.doc == Failed)
    ensures Next(s, Post(waits, false)) == s.(doc := Failed)
    ensures var s' := Next(s, Post(waits, true));
      && s'.doc == Posted && s'.posted == Queued(true, 0) && s'.reversed == NoEvent
         && s'.books == Books(false, false, 0)
      && (waits <==> s'.worker == Committed)
      && (if waits then s'.handoff.Some? && s'.handoff.value.state == T.AwaitingBooks else s'.handoff.None?)
  {
    EveryRunKeeps(steps);
  }

  /**
   A due row that a dispatcher reads and Books takes ends acknowledged; a posting's closes the
   row still waiting for it.
   */
  lemma DispatchDelivers(s: State, posting: bool)
    requires EventOf(s, posting).Queued? && EventOf(s, posting).due
    ensures var i, read := |s.flights|, Next(s, ReadDue(posting));
      var recorded := Next(Next(read, FlightSends(i, TAKES)), FlightRecords(i, true));
      var done := if posting then Next(recorded, FlightCompletes(i, true)) else recorded;
      && EventOf(done, posting) == Acked(EventOf(s, posting).attempts + 1)
         && EventOf(done, !posting) == EventOf(s, !posting)
      && (if posting then done.books.seenPosted else done.books.seenReversed) && done.doc == s.doc
      && (posting && s.handoff.Some? && s.handoff.value.state == T.AwaitingBooks ==> RowClosed(done, T.Accepted))
  {
    LandsIn(Next(s, ReadDue(posting)), |s.flights|);
  }

  /** A delivery Books does not take, for whatever reason, counts; the twentieth ends the row. */
  lemma FailedDeliveryCounts(s: State, i: nat, answer: Answer)
    requires At(s, i, Heard(answer)) && answer != Took
    ensures var f := s.flights[i];
      EventOf(Next(s, FlightRecords(i, true)), f.posting)
      == if 20 <= f.attempts + 1 then Exhausted(f.attempts + 1) else Queued(false, f.attempts + 1)
  {
  }

  /** Anyone may reverse a posted document; a row once written can be replayed, and time makes any queued row due. */
  lemma ByHand(s: State, posting: bool)
    ensures s.doc == Posted ==>
      Next(s, ReverseByHand).doc == Reversed && Next(s, ReverseByHand).reversed == Queued(true, 0)
    ensures !EventOf(s, posting).NoEvent? ==>
      EventOf(Next(s, Replay(posting)), posting) == Queued(true, EventOf(s, posting).attempts)
    ensures EventOf(s, posting).Queued? ==>
      EventOf(Next(s, TimePasses), posting) == Queued(true, EventOf(s, posting).attempts)
  {
  }

  // ------------------------------------------------------------------ the ways apart

  const TAKES := Meeting(true, false, true)

  lemma Extend(steps: seq<Step>, step: Step) returns (longer: seq<Step>)
    ensures longer == steps + [step] && Run(longer) == Next(Run(steps), step)
    ensures InOrder(steps) && SendsInOrder(Run(steps), step) ==> InOrder(longer)
    ensures HandsOff(steps) && LeavesAlone(Run(steps), step) ==> HandsOff(longer)
  {
    longer := steps + [step];
    assert longer[..|longer| - 1] == steps;
  }

  const WAITING :=
    State(Posted, Queued(true, 0), NoEvent, Some(T.Claimed(1)), Books(false, false, 0), Committed, [], false)

  lemma WaitingPost() returns (steps: seq<Step>)
    ensures Run(steps) == WAITING && InOrder(steps) && HandsOff(steps)
  {
    steps := Extend([], Post(true, true));
  }

  /** A waiting post whose one delivery Books refused, or never saw, while a dispatcher may have read the row. */
  lemma DeclinedPost(before: seq<Step>, flights: seq<Flight>, refused: bool) returns (steps: seq<Step>)
    requires Run(before) == WAITING.(flights := flights)
    ensures Run(steps) == WAITING.(posted := Queued(false, 1), worker := Declined(refused), flights := flights)
    ensures InOrder(before) ==> InOrder(steps)
    ensures HandsOff(before) ==> HandsOff(steps)
  {
    steps := Extend(before, ReadRow);
    assert Run(steps).worker == Sending(0);
    steps := Extend(steps, Send(Meeting(refused, true, true)));
    assert Run(steps).worker == Answered(if refused then Refused else Silence, 0);
    steps := Extend(steps, RecordAnswer(true));
  }

  function AfterUndo(flights: seq<Flight>, refused: bool): State
  {
    WAITING.(doc := Reversed, posted := Queued(false, 1), reversed := Queued(true, 0), flights := flights,
             handoff := Some(T.Moved(T.Moved(T.Claimed(1), T.ReversalPending), T.Reversed)),
             worker := if refused then Abandoning else Idle)
  }

  /** And its undo, up to the retirement of the events. */
  lemma UndonePost(before: seq<Step>, flights: seq<Flight>, refused: bool) returns (steps: seq<Step>)
    requires Run(before) == WAITING.(flights := flights)
    ensures Run(steps) == AfterUndo(flights, refused)
    ensures InOrder(before) ==> InOrder(steps)
    ensures HandsOff(before) ==> HandsOff(steps)
  {
    steps := DeclinedPost(before, flights, refused);
    steps := Extend(steps, ClaimReversal(true));
    steps := Extend(steps, UndoPost(true));
    steps := Extend(steps, RecordReversed(true));
  }

  /** A row read before is sent, taken and recorded, whatever it says by now. */
  function Landed(s: State, i: nat): State
    requires At(s, i, Read)
  {
    var posting := s.flights[i].posting;
    Onward(WithEvent(s, posting, Acked(s.flights[i].attempts + 1)), i, Done)
      .(books := Applied(s.books, posting), handoff := if posting then Row(s, Closed(), true) else s.handoff)
  }

  lemma LandsIn(s: State, i: nat)
    requires At(s, i, Read)
    ensures var heard := Next(s, FlightSends(i, TAKES));
      var told := Next(heard, FlightRecords(i, true));
      Landed(s, i) == if s.flights[i].posting then Next(told, FlightCompletes(i, true)) else told
  {
    var f := s.flights[i];
    var heard := Next(s, FlightSends(i, TAKES));
    assert heard == s.(books := Applied(s.books, f.posting), flights := s.flights[i := f.(stage := Heard(Took))]);
    HeardIsRecorded(heard, i, Next(heard, FlightRecords(i, true)));
  }

  lemma HeardIsRecorded(s: State, i: nat, s': State)
    requires At(s, i, Heard(Took)) && s' == Next(s, FlightRecords(i, true))
    ensures var f := s.flights[i];
      s' == WithEvent(s, f.posting, Acked(f.attempts + 1))
              .(flights := s.flights[i := f.(stage := if f.posting then Closing else Done)])
  {
  }

  lemma Land(before: seq<Step>, s: State, i: nat) returns (steps: seq<Step>)
    requires s == Run(before) && At(s, i, Read)
    ensures Run(steps) == Landed(s, i)
    ensures InOrder(before) && s.flights[i].posting ==> InOrder(steps)
    ensures HandsOff(before) ==> HandsOff(steps)
  {
    LandsIn(s, i);
    steps := Extend(before, FlightSends(i, TAKES));
    steps := Extend(steps, FlightRecords(i, true));
    if s.flights[i].posting {
      steps := Extend(steps, FlightCompletes(i, true));
    }
  }

  /** A due row read, and landing at once. */
  lemma Redeliver(before: seq<Step>, s: State, posting: bool) returns (steps: seq<Step>)
    requires s == Run(before) && EventOf(s, posting).Queued? && EventOf(s, posting).due
    ensures var read := s.(flights := s.flights + [Flight(posting, EventOf(s, posting).attempts, Read)]);
      Run(steps) == Landed(read, |s.flights|)
    ensures InOrder(before) && posting ==> InOrder(steps)
    ensures HandsOff(before) && s.worker == Idle ==> HandsOff(steps)
  {
    steps := Extend(before, ReadDue(posting));
    var read := s.(flights := s.flights + [Flight(posting, EventOf(s, posting).attempts, Read)]);
    steps := Land(steps, read, |s.flights|);
  }

  /** The request is over; a reversed document's rows and Books are these. */
  function Settled(s: State, posted: Event, reversed: Event, books: Books): State
  {
    s.(posted := posted, reversed := reversed, books := books, worker := Idle)
  }

  lemma RetiredFrom(s: State, s': State)
    requires s.worker == Abandoning && s' == Settled(s, Retired(s.posted), Retired(s.reversed), s.books)
    ensures Next(s, AbandonEvents(true)) == s'
  {
  }

  /** What a landing leaves: Books as it took the event, the row acknowledged, the flight done. */
  lemma LandedFields(s: State, i: nat, s': State)
    requires At(s, i, Read) && s' == Landed(s, i)
    ensures s'.books == Applied(s.books, s.flights[i].posting) && s'.doc == s.doc && s'.worker == s.worker
    ensures s'.posted == if s.flights[i].posting then Acked(s.flights[i].attempts + 1) else s.posted
    ensures s'.reversed == if s.flights[i].posting then s.reversed else Acked(s.flights[i].attempts + 1)
    ensures s'.flights == s.flights[i := s.flights[i].(stage := Done)]
  {
  }

  lemma RedeliveredUndone() returns (steps: seq<Step>)
    ensures Run(steps) == Landed(AfterUndo([Flight(true, 1, Read)], true).(posted := Queued(true, 1)), 0)
    ensures InOrder(steps)
  {
    steps := WaitingPost();
    steps := UndonePost(steps, [], true);
    steps := Extend(steps, TimePasses);
    steps := Redeliver(steps, AfterUndo([], true).(posted := Queued(true, 1)), true);
  }

  /**
   In event order and all drained: a dispatcher redelivers between the refusal and the
   retirement, and Books takes it.
   */
  lemma RedeliveryBeforeRetirement() returns (steps: seq<Step>)
    ensures InOrder(steps) && Drained(Run(steps)) && Run(steps).doc == Reversed && Run(steps).books.journals == 1
  {
    var s := AfterUndo([Flight(true, 1, Read)], true).(posted := Queued(true, 1));
    var landed := Landed(s, 0);
    steps := RedeliveredUndone();
    LandedFields(s, 0, landed);
    steps := Extend(steps, AbandonEvents(true));
    RetiredFrom(landed, Settled(landed, Acked(2), Abandoned(0), landed.books));
  }

  const STILL_READ := [Flight(true, 0, Read)]

  const RETIRED_IN_FLIGHT := Settled(AfterUndo(STILL_READ, true), Abandoned(1), Abandoned(0), Books(false, false, 0))

  lemma RetiredInFlight() returns (steps: seq<Step>)
    ensures Run(steps) == RETIRED_IN_FLIGHT && InOrder(steps)
  {
    steps := WaitingPost();
    steps := Extend(steps, ReadDue(true));
    steps := UndonePost(steps, STILL_READ, true);
    steps := Extend(steps, AbandonEvents(true));
    RetiredFrom(AfterUndo(STILL_READ, true), RETIRED_IN_FLIGHT);
  }

  /**
   In event order and all drained: a dispatcher has read the row before Books refuses the
   request, and its own delivery lands after the events are retired.
   */
  lemma LandsAfterRetirement() returns (steps: seq<Step>)
    ensures InOrder(steps) && Drained(Run(steps)) && Run(steps).doc == Reversed && Run(steps).books.journals == 1
    ensures Run(steps).reversed.Abandoned?
  {
    steps := RetiredInFlight();
    steps := Land(steps, RETIRED_IN_FLIGHT, 0);
    LandedFields(RETIRED_IN_FLIGHT, 0, Run(steps));
  }

  lemma ReversalFirst() returns (steps: seq<Step>)
    ensures Run(steps) == Landed(AfterUndo([Flight(false, 0, Read)], false), 0) && HandsOff(steps)
  {
    steps := WaitingPost();
    steps := UndonePost(steps, [], false);
    steps := Redeliver(steps, AfterUndo([], false), false);
  }

  /**
   Out of event order: the posting waits out its back-off while the reversal is due, goes
   first, and undoes nothing.
   */
  lemma ReversalOvertakes() returns (steps: seq<Step>)
    ensures HandsOff(steps) && Drained(Run(steps)) && Run(steps).doc == Reversed && Run(steps).books.journals == 1
  {
    var s := AfterUndo([Flight(false, 0, Read)], false);
    LandedFields(s, 0, Landed(s, 0));
    steps := ReversalFirst();
    steps := Extend(steps, TimePasses);
    var due := Landed(s, 0).(posted := Queued(true, 1));
    steps := Redeliver(steps, due, true);
    LandedFields(due.(flights := due.flights + [Flight(true, 1, Read)]), 1, Run(steps));
  }

  /** A reversal applied first does no harm while its posting, refused for good, is retired unapplied. */
  lemma ReversalOfNothing() returns (steps: seq<Step>)
    ensures Drained(Run(steps)) && Agrees(Run(steps)) && Run(steps).books == Books(false, true, 0)
  {
    steps := WaitingPost();
    steps := UndonePost(steps, [], true);
    steps := Redeliver(steps, Run(steps), false);
    steps := Extend(steps, AbandonEvents(true));
  }
}
