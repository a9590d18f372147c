/** The cron heartbeat: one start, one finish, the exit code having the last word. */
module Heartbeat {
  import opened Outcomes
  import opened Text

  type Counts = map<string, int>

  /** What the work said of itself. */
  datatype Report = Report(ok: bool, message: string, counts: Counts)

  /** One POST to the monitor, whether or not it arrives. */
  datatype Beat = Started(runId: nat) | Finished(runId: nat, report: Report)

  datatype Call = Success(counts: Counts, message: string) | Failure(message: string, counts: Counts)

  /** The last error the process recorded; some kinds stop it dead. */
  datatype PhpError = PhpError(fatal: bool, text: string)

  /** How the work stops. Dies is every stop that runs no catch block: a fatal error, exit(), a kill. */
  datatype Ending = Returns(code: int) | Throws(text: string) | Dies

  const NO_MESSAGE := "Run failed without a message."
  const SUCCESS_FIRST := " \U{2014} the run reported success first"

  function ReportOf(call: Call): Report
  {
    match call
    case Success(counts, message) => Report(true, message, counts)
    case Failure(message, counts) => Report(false, if message != "" then message else NO_MESSAGE, counts)
  }

  function FirstReport(calls: seq<Call>): Option<Report> { if calls == [] then None else Some(ReportOf(calls[0])) }

  function Tail(message: string): string { if message != "" then ": " + message else "" }

  /** The message of a verdict from outside the work, over what the work had reported. */
  function VerdictMessage(verdict: string, pending: Option<Report>): string
  {
    match pending
    case None => verdict
    case Some(p) => if p.ok then verdict + SUCCESS_FIRST + Tail(p.message) else verdict + Tail(p.message)
  }

  /** A fatal error keeps only a success the work had claimed. */
  function FatalMessage(error: PhpError, pending: Option<Report>): string
  {
    var message := "Fatal error: " + error.text;
    if pending.Some? && pending.value.ok then message + SUCCESS_FIRST + Tail(pending.value.message) else message
  }

  function CountsOf(pending: Option<Report>): Counts { if pending.Some? then pending.value.counts else map[] }

  /** What a report says: the work's own words, or that it gave none. */
  lemma ReportsSay(message: string, counts: Counts)
    ensures ReportOf(Success(counts, message)) == Report(true, message, counts)
    ensures message != "" ==> ReportOf(Failure(message, counts)) == Report(false, message, counts)
    ensures ReportOf(Failure("", counts)) == Report(false, "Run failed without a message.", counts)
    ensures FirstReport([]) == None && CountsOf(None) == map[]
    ensures forall calls: seq<Call> :: calls != [] ==> FirstReport(calls) == Some(ReportOf(calls[0]))
    ensures forall report: Report :: CountsOf(Some(report)) == report.counts
  {
  }

  /** A verdict from outside comes first, then that the work had claimed success, if it had, then what it had said. */
  lemma VerdictsSay(verdict: string, message: string, counts: Counts)
    ensures VerdictMessage(verdict, None) == verdict
    ensures VerdictMessage(verdict, Some(Report(true, "", counts)))
      == verdict + " \U{2014} the run reported success first"
    ensures message != "" ==>
      VerdictMessage(verdict, Some(Report(true, message, counts)))
      == verdict + " \U{2014} the run reported success first" + (": " + message)
    ensures VerdictMessage(verdict, Some(Report(false, "", counts))) == verdict
    ensures message != "" ==>
      VerdictMessage(verdict, Some(Report(false, message, counts))) == verdict + (": " + message)
  {
    assert verdict + "" == verdict;
    assert verdict + SUCCESS_FIRST + "" == verdict + SUCCESS_FIRST;
  }

  /**
   A fatal error is named as one, and a claim of success it overtook is kept; a failure already
   said is not repeated.
   */
  lemma FatalErrorsSay(text: string, message: string, counts: Counts)
    ensures FatalMessage(PhpError(true, text), None) == "Fatal error: " + text
    ensures FatalMessage(PhpError(true, text), Some(Report(false, message, counts))) == "Fatal error: " + text
    ensures message != "" ==>
      FatalMessage(PhpError(true, text), Some(Report(true, message, counts)))
      == "Fatal error: " + text + " \U{2014} the run reported success first" + (": " + message)
  {
  }

  class CronHeartbeat {
    const monitor: string
    const configured: bool
    /** The id the next start, or a finish without a start, would draw. */
    var nextId: nat
    var runId: Option<nat>
    var finished: bool
    var deferred: bool
    var armed: bool
    var pending: Option<Report>
    var sent: seq<Beat>

    constructor (monitor: string, configured: bool, nextId: nat)
      ensures this.monitor == Trim(monitor) && this.configured == configured
        && this.nextId == nextId
      ensures runId.None? && !finished && !deferred && !armed && pending.None?
        && sent == []
    {
      this.monitor, this.configured, this.nextId := Trim(monitor), configured, nextId;
      runId, finished, deferred, armed, pending, sent := None, false, false, false, None, [];
    }

    predicate Reports() { monitor != "" && configured }

    method HoldFinishes()
      modifies this`deferred
      ensures deferred
    {
      deferred := true;
    }

    method Begin()
      modifies this`runId, this`nextId, this`armed, this`sent
      ensures !Reports() ==>
        runId == old(runId) && armed == old(armed) && sent == old(sent)
      ensures Reports() ==>
        runId == Some(old(nextId)) && armed && sent == old(sent) + [Started(old(nextId))]
    {
      if !Reports() {
        return;
      }
      runId := Some(nextId);
      nextId := nextId + 1;
      armed := true;
      sent := sent + [Started(runId.value)];
    }

    method Finish(report: Report)
      modifies this`runId, this`nextId, this`finished, this`pending, this`sent
      ensures finished
      ensures old(finished) || !Reports() ==>
        runId == old(runId) && pending == old(pending) && sent == old(sent)
      ensures !old(finished) && Reports() && deferred ==>
        runId == old(runId) && pending == Some(report) && sent == old(sent)
      ensures !old(finished) && Reports() && !deferred ==>
        && runId == Some(if old(runId).Some? then old(runId).value else old(nextId))
        && pending == old(pending) && sent == old(sent) + [Finished(runId.value, report)]
    {
      if finished || !Reports() {
        finished := true;
        return;
      }
      if deferred {
        finished := true;
        pending := Some(report);
        return;
      }
      finished := true;
      if runId.None? {
        runId := Some(nextId);
        nextId := nextId + 1;
      }
      sent := sent + [Finished(runId.value, report)];
    }

    method Do(call: Call)
      modifies this`runId, this`nextId, this`finished, this`pending, this`sent
      ensures finished
      ensures old(finished) || !Reports() ==>
        runId == old(runId) && pending == old(pending) && sent == old(sent)
      ensures !old(finished) && Reports() && deferred ==>
        runId == old(runId) && pending == Some(ReportOf(call)) && sent == old(sent)
      ensures !old(finished) && Reports() && !deferred ==>
        && runId == Some(if old(runId).Some? then old(runId).value else old(nextId))
        && pending == old(pending) && sent == old(sent) + [Finished(runId.value, ReportOf(call))]
    {
      match call
      case Success(counts, message) => Finish(Report(true, message, counts));
      case Failure(message, counts) => Finish(Report(false, if message != "" then message else NO_MESSAGE, counts));
    }

    /** The one finish of a held run, the verdict only ever making it worse. */
    method Settle(failed: bool, verdict: string)
      requires runId.Some? || !Reports()
      modifies this`runId, this`nextId, this`finished, this`deferred, this`pending, this`sent
      ensures finished && !deferred && pending.None? && (Reports() ==> runId == old(runId))
      ensures !Reports() ==> sent == old(sent)
      ensures Reports() ==>
        sent == old(sent) + [Finished(old(runId).value,
          if failed then Report(false, VerdictMessage(verdict, old(pending)), CountsOf(old(pending)))
          else if old(pending).Some? then old(pending).value else Report(true, "", map[]))]
    {
      var held := pending;
      pending := None;
      deferred := false;
      finished := false;
      var counts := CountsOf(held);
      var reported := if held.Some? then held.value.message else "";
      if !failed {
        Finish(Report(if held.Some? then held.value.ok else true, reported, counts));
        return;
      }
      var message := verdict;
      if held.Some? {
        message := message + if held.value.ok then SUCCESS_FIRST + Tail(reported) else Tail(reported);
        assert verdict + (SUCCESS_FIRST + Tail(reported)) == verdict + SUCCESS_FIRST + Tail(reported);
      }
      Finish(Report(false, message, counts));
    }

    /** The shutdown handler, which only an armed guard runs. */
    method HandleFatalErrorAtShutdown(error: Option<PhpError>)
      requires runId.Some? || !Reports()
      modifies this`runId, this`nextId, this`finished, this`deferred, this`pending, this`sent
      ensures (old(finished) && !old(deferred)) || error.None? || !error.value.fatal || !Reports() ==> sent == old(sent)
      ensures !(old(finished) && !old(deferred)) && error.Some? && error.value.fatal && Reports() ==>
        sent == old(sent)
          + [Finished(old(runId).value, Report(false, FatalMessage(error.value, old(pending)), CountsOf(old(pending))))]
    {
      if finished && !deferred {
        return;
      }
      if error.None? || !error.value.fatal {
        return;
      }
      var held := pending;
      pending := None;
      deferred := false;
      finished := false;
      var message := "Fatal error: " + error.value.text;
      if held.Some? && held.value.ok {
        message := message + SUCCESS_FIRST + Tail(held.value.message);
      }
      assert message != "";
      Do(Failure(message, CountsOf(held)));
    }
  }

  /** The run died where nothing could report it: no catch block ran and no fatal error was left to read. */
  predicate DiesSilently(ending: Ending, lastError: Option<PhpError>)
  {
    ending.Dies? && (lastError.None? || !lastError.value.fatal)
  }

  /** The worst verdict wins: the exit code, a throw or a death, and the first thing the work said. */
  predicate WentWell(calls: seq<Call>, ending: Ending)
  {
    ending == Returns(0) && (calls == [] || calls[0].Success?)
  }

  /** What the finish must say, from the work's calls and its end alone. */
  predicate TellsTheRun(report: Report, calls: seq<Call>, ending: Ending, lastError: Option<PhpError>)
  {
    && (report.ok <==> WentWell(calls, ending))
    && report.counts == (if calls == [] then map[] else calls[0].counts)
    && match ending
       case Returns(code) =>
         if code != 0 then report.message == VerdictMessage("Exited with code " + Signed(code), FirstReport(calls))
         else report.message == if calls == [] then "" else ReportOf(calls[0]).message
       case Throws(text) => report.message == VerdictMessage(text, FirstReport(calls))
       case Dies => lastError.Some? && report.message == FatalMessage(lastError.value, FirstReport(calls))
  }

  /**
   reportRun() and the process end after it: a configured monitor gets exactly one start
   and one finish with the start's run id, unless the run died silently, which leaves the
   start alone. lastError is what the shutdown handler reads, however the run ended.
   */
  method ReportRun(
      monitor: string, configured: bool, id: nat, calls: seq<Call>, ending: Ending, lastError: Option<PhpError>)
    returns (sent: seq<Beat>)
    ensures Trim(monitor) == "" || !configured ==> sent == []
    ensures Trim(monitor) != "" && configured ==> 1 <= |sent| && sent[0] == Started(id)
    ensures Trim(monitor) != "" && configured ==> (|sent| == 1 <==> DiesSilently(ending, lastError))
    ensures Trim(monitor) != "" && configured && !DiesSilently(ending, lastError) ==>
      |sent| == 2 && sent[1].Finished? && sent[1].runId == id && TellsTheRun(sent[1].report, calls, ending, lastError)
  {
    var beat := new CronHeartbeat(monitor, configured, id);
    beat.HoldFinishes();
    beat.Begin();
    ghost var begun := beat.sent;
    for k := 0 to |calls|
      invariant beat.deferred && beat.sent == begun && (beat.armed <==> beat.Reports())
      invariant beat.Reports() ==> beat.runId == Some(id)
      invariant beat.Reports() && k == 0 ==> !beat.finished && beat.pending.None?
      invariant beat.Reports() && 0 < k ==> beat.finished && beat.pending == FirstReport(calls)
    {
      beat.Do(calls[k]);
    }
    match ending {
      case Returns(code) => beat.Settle(code != 0, "Exited with code " + Signed(code));
      case Throws(text) => beat.Settle(true, text);
      case Dies =>
    }
    if beat.armed {
      beat.HandleFatalErrorAtShutdown(lastError);
    }
    sent := beat.sent;
  }

  /**
   Driven by hand: the first report is the one sent, at once, and a fatal error speaks only for
   a run that had not.
   */
  method DriveByHand(monitor: string, configured: bool, id: nat, calls: seq<Call>, lastError: Option<PhpError>)
    returns (sent: seq<Beat>)
    ensures Trim(monitor) == "" || !configured ==> sent == []
    ensures Trim(monitor) != "" && configured && calls != [] ==>
      sent == [Started(id), Finished(id, ReportOf(calls[0]))]
    ensures Trim(monitor) != "" && configured && calls == [] ==>
      if lastError.Some? && lastError.value.fatal
      then sent == [Started(id), Finished(id, Report(false, FatalMessage(lastError.value, None), map[]))]
      else sent == [Started(id)]
  {
    var beat := new CronHeartbeat(monitor, configured, id);
    beat.Begin();
    for k := 0 to |calls|
      invariant !beat.deferred && beat.pending.None? && (beat.armed <==> beat.Reports())
      invariant !beat.Reports() ==> beat.sent == []
      invariant beat.Reports() ==> beat.runId == Some(id) && (beat.finished <==> 0 < k)
      invariant beat.Reports() ==>
        beat.sent == if k == 0 then [Started(id)] else [Started(id), Finished(id, ReportOf(calls[0]))]
    {
      beat.Do(calls[k]);
    }
    if beat.armed {
      beat.HandleFatalErrorAtShutdown(lastError);
    }
    sent := beat.sent;
  }
}
