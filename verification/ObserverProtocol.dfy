/** The one-shot observer: what the callbacks handed to an untrusted observer amount to. */
module ObserverProtocol {
  import opened Outcomes

  /** One use of a callback: delivered plain data, delivered something else, or a failure report. */
  datatype Report = Delivered(value: string) | NotPlainData | FailureReported

  /** How the observer function itself ended. */
  datatype Ending = Threw | ReturnedNothing | ReturnedSomething

  datatype Terminal = Observation(value: string) | InvalidObservation | ObserverFailure | Conflict | ProtocolError

  function AsTerminal(r: Report): Terminal {
    match r
    case Delivered(v) => Observation(v)
    case NotPlainData => InvalidObservation
    case FailureReported => ObserverFailure
  }

  /** The shared variables of one capture; `settlements` lists the times the promise was resolved
      or rejected. */
  class Capture {
    var invocationReturned: bool
    var settled: bool
    var terminal: Option<Terminal>
    var settlements: seq<Terminal>

    ghost predicate Valid()
      reads this
    {
      && (settled <==> settlements != [])
      && (settled ==> invocationReturned && terminal.Some? && settlements == [terminal.value])
      && (invocationReturned && terminal.Some? ==> settled)
    }

    constructor ()
      ensures Valid() && !invocationReturned && terminal.None?
    {
      invocationReturned, settled, terminal, settlements := false, false, None, [];
    }

    method SettleIfReady()
      requires settled <==> settlements != []
      requires settled ==> invocationReturned && terminal.Some? && settlements == [terminal.value]
      modifies this`settled, this`settlements
      ensures Valid()
    {
      if !invocationReturned || settled || terminal.None? { return; }
      settled := true;
      settlements := settlements + [terminal.value];
    }

    method SetTerminal(next: Terminal) returns (accepted: bool)
      requires Valid()
      modifies this
      ensures Valid() && invocationReturned == old(invocationReturned)
      ensures accepted <==> old(terminal).None?
      ensures terminal == match old(terminal)
                          case None => Some(next)
                          case Some(t) => if invocationReturned then Some(t) else Some(Conflict)
    {
      if settled { return false; }
      if terminal.Some? {
        if !invocationReturned { terminal := Some(Conflict); }
        SettleIfReady();
        return false;
      }
      terminal := Some(next);
      SettleIfReady();
      return true;
    }

    /** Either callback; data that cannot be captured counts as an error report. */
    method Reported(r: Report) returns (accepted: bool)
      requires Valid()
      modifies this
      ensures Valid() && invocationReturned == old(invocationReturned)
      ensures accepted <==> old(terminal).None? && !r.NotPlainData?
      ensures terminal == match old(terminal)
                          case None => Some(AsTerminal(r))
                          case Some(t) => if invocationReturned then Some(t) else Some(Conflict)
    {
      accepted := SetTerminal(AsTerminal(r));
      if r.NotPlainData? { accepted := false; }
    }

    method InvocationEnded(ending: Ending)
      requires Valid() && !invocationReturned
      modifies this
      ensures Valid() && invocationReturned
      ensures terminal == match ending
                          case Threw => Some(ObserverFailure)
                          case ReturnedSomething => Some(ProtocolError)
                          case ReturnedNothing => old(terminal)
    {
      if ending.Threw? { terminal := Some(ObserverFailure); }
      invocationReturned := true;
      if ending.ReturnedSomething? { terminal := Some(ProtocolError); }
      SettleIfReady();
    }
  }

  // ----- the whole protocol

  /** What a capture comes to, said without its variables. */
  function Verdict(sync: seq<Report>, ending: Ending, later: seq<Report>): Option<Terminal> {
    match ending
    case Threw => Some(ObserverFailure)
    case ReturnedSomething => Some(ProtocolError)
    case ReturnedNothing =>
      if |sync| >= 2 then Some(Conflict)
      else if |sync| == 1 then Some(AsTerminal(sync[0]))
      else if later != [] then Some(AsTerminal(later[0]))
      else None
  }

  /** The value the `k`-th use of a callback returns to the observer. */
  predicate Answer(sync: seq<Report>, ending: Ending, later: seq<Report>, k: nat)
    requires k < |sync| + |later|
  {
    k == 0 && (sync + later)[0] != NotPlainData && (sync != [] || ending.ReturnedNothing?)
  }

  /** Any synchronous reports, any ending and any later reports: the promise is settled at most
      once, and with the verdict. */
  method Observe(sync: seq<Report>, ending: Ending, later: seq<Report>)
    returns (settlements: seq<Terminal>, answers: seq<bool>)
    ensures settlements == match Verdict(sync, ending, later) case None => [] case Some(t) => [t]
    ensures |answers| == |sync| + |later|
    ensures forall k :: 0 <= k < |answers| ==> answers[k] == Answer(sync, ending, later, k)
  {
    var c := new Capture();
    answers := [];
    var i := 0;
    while i < |sync|
      invariant 0 <= i <= |sync| && |answers| == i
      invariant c.Valid() && !c.invocationReturned
      invariant c.terminal == if i == 0 then None else if i == 1 then Some(AsTerminal(sync[0])) else Some(Conflict)
      invariant forall k :: 0 <= k < i ==> answers[k] == Answer(sync, ending, later, k)
    {
      var a := c.Reported(sync[i]);
      answers := answers + [a];
      i := i + 1;
    }
    c.InvocationEnded(ending);
    i := 0;
    while i < |later|
      invariant 0 <= i <= |later| && |answers| == |sync| + i
      invariant c.Valid() && c.invocationReturned
      invariant c.terminal == Verdict(sync, ending, later[..i])
      invariant forall k :: 0 <= k < |answers| ==> answers[k] == Answer(sync, ending, later, k)
    {
      var a := c.Reported(later[i]);
      answers := answers + [a];
      i := i + 1;
    }
    assert later[..i] == later;
    settlements := c.settlements;
  }

  /** The report that counts: the only synchronous one, or the first later one after none at all. */
  predicate Counts(sync: seq<Report>, later: seq<Report>, r: Report) {
    sync == [r] || (sync == [] && later != [] && later[0] == r)
  }

  /** Exactly when a capture comes to each of its ends, and when to none. */
  lemma VerdictExactly(sync: seq<Report>, ending: Ending, later: seq<Report>)
    ensures forall v :: Verdict(sync, ending, later) == Some(Observation(v))
                   <==> ending.ReturnedNothing? && Counts(sync, later, Delivered(v))
    ensures Verdict(sync, ending, later) == Some(InvalidObservation)
       <==> ending.ReturnedNothing? && Counts(sync, later, NotPlainData)
    ensures Verdict(sync, ending, later) == Some(ObserverFailure)
       <==> ending.Threw? || (ending.ReturnedNothing? && Counts(sync, later, FailureReported))
    ensures Verdict(sync, ending, later) == Some(ProtocolError) <==> ending.ReturnedSomething?
    ensures Verdict(sync, ending, later) == Some(Conflict) <==> ending.ReturnedNothing? && |sync| >= 2
    ensures Verdict(sync, ending, later).None? <==> ending.ReturnedNothing? && sync == [] && later == []
  {
    if |sync| == 1 { assert sync == [sync[0]]; }
  }
}
