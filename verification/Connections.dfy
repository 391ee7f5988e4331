/** One request's connection and the journal entry kept about it: what is appended, amended, written
    and aborted, in the order it happens.  */
module Connections {
  import opened Text
  import opened Faults

  datatype OutcomeKind = ScenarioOutcome | ErrorOutcome | FaultOutcome | UnmatchedOutcome

  datatype StreamState = Opened | Completed | Aborted | ClientGone

  /** The planned half of a streamed outcome, and its observed half. */
  datatype StreamOutcome = StreamOutcome(
    chunkCount: nat, bytesPlanned: nat, paces: seq<int>, terminalIndex: int,
    abortAfterChunk: Option<int>, truncatedAtByte: Option<nat>, stallBefore: Option<int>,
    sent: nat, state: StreamState)

  /** The journaled fault kind: none, a pure delay, or the attempt's own. */
  datatype FaultLabel = Unfaulted | Delayed | Scripted(kind: Kind)

  datatype Outcome = Outcome(
    kind: OutcomeKind, selection: string, status: int, faultKey: string, attemptIndex: int, fault: FaultLabel,
    delay: int, delayAfterHeaders: int, aborted: bool, written: nat, stream: Option<StreamOutcome>)

  datatype StreamClose = StreamClose(written: nat, sent: nat, state: StreamState)

  /** Whose bytes were written. */
  datatype Origin = HandlerBody | RendererBody | DeclaredBody | RawBody | Padding | Frames

  datatype Event =
    | Claim
    | Append(outcome: Outcome)
    | Close(close: StreamClose)
    | Headers(status: int)
    | Sent(origin: Origin, bytes: Bytes)
    | Reset
    | Abort

  type Merge = (Bytes, map<string, string>) -> Option<Bytes>

  /** What lies outside: the client, one answer per hang or write it sits through, None while it stays
      or how many bytes it took before it went; whether delays are skipped outright; and the merge of
      fields into a JSON body, which fails on a body that is no object. */
  datatype World = World(client: nat -> Option<nat>, skip: bool, merge: Merge) {
    ghost predicate Patient() { forall i :: client(i).None? }
  }

  /** What one request has left so far; waits holds the hangs it has begun, in order. */
  datatype Log = Log(trace: seq<Event>, met: nat, status: int, appended: bool, closed: bool, waits: seq<int>)

  const START := Log([], 0, 0, false, false, [])

  // ---- what each primitive does to the log ----

  function Emit(l: Log, e: Event): Log { l.(trace := l.trace + [e]) }

  function Recorded(l: Log, out: Outcome): Log {
    if l.appended then l else Emit(l, Append(out)).(appended := true)
  }

  function Closed(l: Log, c: StreamClose): Log {
    if l.closed then l else Emit(l, Close(c)).(closed := true)
  }

  function FinalStatus(status: int): int {
    if 100 <= status < 200 && status != 101 then 200 else status
  }

  function HeadersSent(l: Log, status: int): Log {
    Emit(l, Headers(status)).(status := FinalStatus(status))
  }

  predicate Hangs(w: World, d: int) { !w.skip && d > 0 }

  predicate Gone(w: World, l: Log, d: int) { Hangs(w, d) && w.client(l.met).Some? }

  function Slept(w: World, l: Log, d: int): Log {
    if Hangs(w, d) then l.(met := l.met + 1, waits := l.waits + [d]) else l
  }

  function Accepted(w: World, l: Log, bytes: Bytes): (n: nat)
    ensures n <= |bytes|
  {
    if bytes == [] || WritesNoBody(l.status) then 0
    else match w.client(l.met)
      case None => |bytes|
      case Some(n) => if n < |bytes| then n else |bytes|
  }

  predicate WriteFails(w: World, l: Log, bytes: Bytes) {
    bytes != [] && (WritesNoBody(l.status) || w.client(l.met).Some?)
  }

  function Wrote(w: World, l: Log, origin: Origin, bytes: Bytes): Log {
    if bytes == [] then Emit(l, Sent(origin, []))
    else if WritesNoBody(l.status) then l
    else Emit(l, Sent(origin, bytes[..Accepted(w, l, bytes)])).(met := l.met + 1)
  }

  // ---- the connection ----

  class Connection {
    const world: World
    var trace: seq<Event>
    var met: nat
    var status: int
    var appended: bool
    var closed: bool
    var waits: seq<int>

    constructor (world: World)
      ensures Now() == START && this.world == world
    {
      this.world := world;
      trace, met, status, appended, closed, waits := [], 0, 0, false, false, [];
    }

    function Now(): Log
      reads this
    {
      Log(trace, met, status, appended, closed, waits)
    }

    /** Appends the entry, once. */
    method Record(out: Outcome)
      modifies this
      ensures Now() == Recorded(old(Now()), out)
    {
      if appended { return; }
      appended := true;
      trace := trace + [Append(out)];
    }

    /** Amends the entry with what a stream came to, once. */
    method Closer(c: StreamClose)
      modifies this
      ensures Now() == Closed(old(Now()), c)
    {
      if closed { return; }
      closed := true;
      trace := trace + [Close(c)];
    }

    method WriteHeader(code: int)
      modifies this
      ensures Now() == HeadersSent(old(Now()), code)
    {
      trace := trace + [Headers(code)];
      status := FinalStatus(code);
    }

    method Write(origin: Origin, bytes: Bytes) returns (n: nat, failed: bool)
      modifies this
      ensures Now() == Wrote(world, old(Now()), origin, bytes)
      ensures n == Accepted(world, old(Now()), bytes) && failed == WriteFails(world, old(Now()), bytes)
    {
      if bytes == [] {
        trace := trace + [Sent(origin, [])];
        return 0, false;
      }
      if WritesNoBody(status) { return 0, true; }
      failed := world.client(met).Some?;
      n := |bytes|;
      if failed && world.client(met).value < n { n := world.client(met).value; }
      trace := trace + [Sent(origin, bytes[..n])];
      met := met + 1;
    }

    method Sleep(d: int) returns (gone: bool)
      modifies this
      ensures Now() == Slept(world, old(Now()), d)
      ensures gone == Gone(world, old(Now()), d)
    {
      if world.skip || d <= 0 { return false; }
      gone := world.client(met).Some?;
      met := met + 1;
      waits := waits + [d];
    }

    method Note(e: Event)
      modifies this
      ensures Now() == Emit(old(Now()), e)
    {
      trace := trace + [e];
    }
  }

  // ---- reading a trace ----

  /** The body bytes a client received. */
  function Wire(trace: seq<Event>): Bytes {
    if trace == [] then []
    else
      var n := |trace| - 1;
      if trace[n].Sent? then Wire(trace[..n]) + trace[n].bytes else Wire(trace[..n])
  }

  function Appends(trace: seq<Event>): nat {
    if trace == [] then 0
    else Appends(trace[..|trace| - 1]) + if trace[|trace| - 1].Append? then 1 else 0
  }

  function Closes(trace: seq<Event>): nat {
    if trace == [] then 0
    else Closes(trace[..|trace| - 1]) + if trace[|trace| - 1].Close? then 1 else 0
  }

  function Claims(trace: seq<Event>): nat {
    if trace == [] then 0
    else Claims(trace[..|trace| - 1]) + if trace[|trace| - 1].Claim? then 1 else 0
  }

  lemma EmitReads(trace: seq<Event>, e: Event)
    ensures Wire(trace + [e]) == Wire(trace) + if e.Sent? then e.bytes else []
    ensures Appends(trace + [e]) == Appends(trace) + if e.Append? then 1 else 0
    ensures Closes(trace + [e]) == Closes(trace) + if e.Close? then 1 else 0
    ensures Claims(trace + [e]) == Claims(trace) + if e.Claim? then 1 else 0
  {
    assert (trace + [e])[..|trace|] == trace;
  }
}
