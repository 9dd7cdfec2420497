/**
 The readers-writers gate around the pool counter, reduced to its state:
 the reader count and whether the resource lock is held. The rest of the
 model runs each command as one atomic step, which is sound only if every
 command leaves the gate as it found it. This module shows that the query
 branch as written does not when sending its reply raises, and that the
 same branch with its exit in a `finally` clause does.
 */
module ReadersGate {

  /** `read_count` and whether `resource_lock` is taken. */
  datatype Gate = Gate(readers: nat, locked: bool)

  const Open: Gate := Gate(0, false)

  /** An acquire or release gets through only while the resource lock is free. */
  predicate WriterCanEnter(g: Gate)
  {
    !g.locked
  }

  datatype Entry = Blocked | Entered(gate: Gate)

  /** A reader counts itself in; the first reader takes the resource lock,
      and waits while a writer holds it. */
  function EnterRead(g: Gate): Entry
  {
    if g.readers == 0 && g.locked then Blocked
    else Entered(Gate(g.readers + 1, if g.readers == 0 then true else g.locked))
  }

  /** A reader counts itself out; the last reader frees the resource lock. */
  function LeaveRead(g: Gate): Gate
    requires g.readers > 0
  {
    Gate(g.readers - 1, if g.readers == 1 then false else g.locked)
  }

  /** The query branch as written: the reply is sent between entering and
      leaving, outside any `try`, so a send that raises skips the exit. */
  function QueryAsWritten(g: Gate, sendRaises: bool): Entry
  {
    match EnterRead(g)
    case Blocked => Blocked
    case Entered(h) => if sendRaises then Entered(h) else Entered(LeaveRead(h))
  }

  /** The query branch with its exit in a `finally` clause, as the acquire
      and release branches release the resource lock. */
  function QueryCorrected(g: Gate, sendRaises: bool): Entry
  {
    match EnterRead(g)
    case Blocked => Blocked
    case Entered(h) => Entered(LeaveRead(h))
  }

  /** What the threads do with the gate, one critical section after
      another: a query whose send may raise, or an acquire/release. */
  datatype Event = Query(sendRaises: bool) | Write

  /** The gate after a history of events, and how many writers got through.
      A blocked thread leaves the gate as it was. */
  datatype Replay = Replay(gate: Gate, writersAdmitted: nat)

  function ReplayGate(g: Gate, events: seq<Event>, corrected: bool): Replay
    decreases |events|
  {
    if events == [] then Replay(g, 0)
    else
      var next := match events[0]
        case Write => g
        case Query(raises) =>
          (match (if corrected then QueryCorrected(g, raises) else QueryAsWritten(g, raises))
           case Blocked => g
           case Entered(h) => h);
      var admitted := if events[0].Write? && WriterCanEnter(g) then 1 else 0;
      var rest := ReplayGate(next, events[1..], corrected);
      Replay(rest.gate, admitted + rest.writersAdmitted)
  }

  function CountWrites(events: seq<Event>): nat
  {
    if events == [] then 0 else (if events[0].Write? then 1 else 0) + CountWrites(events[1..])
  }

  /** One query whose send raises leaves a reader counted in and the
      resource lock taken. */
  lemma RaisingQueryJamsGate()
    ensures QueryAsWritten(Open, true) == Entered(Gate(1, true))
    ensures !WriterCanEnter(Gate(1, true))
  {
  }

  /** Once jammed, the gate stays jammed: whatever queries follow, raising
      or not, no acquire or release ever gets through again. */
  lemma {:induction false} JammedForever(g: Gate, events: seq<Event>)
    requires g.readers > 0 && g.locked
    ensures var r := ReplayGate(g, events, false);
      r.gate.readers > 0 && r.gate.locked && r.writersAdmitted == 0
    decreases |events|
  {
    if events != [] {
      var next := match events[0]
        case Write => g
        case Query(raises) =>
          (match QueryAsWritten(g, raises) case Blocked => g case Entered(h) => h);
      JammedForever(next, events[1..]);
    }
  }

  /** With the exit in a `finally` clause, every query returns the gate to
      where it was, so from an open gate every writer gets through. */
  lemma {:induction false} CorrectedAdmitsAllWriters(events: seq<Event>)
    ensures ReplayGate(Open, events, true) == Replay(Open, CountWrites(events))
    decreases |events|
  {
    if events != [] {
      CorrectedAdmitsAllWriters(events[1..]);
    }
  }
}
