/** The browser side of a job's event stream: it reconnects from the last number seen, drops duplicates and stops at a
    terminal event. */
module JobReplay {
  import opened Jobs
  import opened Wrappers

  /** The current `EventSource`: none yet, one that asked for the events after `from`, or one that was closed. */
  datatype Source = NoSource | Listening(from: nat) | Shut

  /** `delivered` is what was handed to the event callback. */
  datatype Client = Client(
    lastSeq: nat, closed: bool, terminal: bool, source: Source, retryArmed: bool, delivered: seq<Event>)

  /** A client that has seen everything up to `fromSeq`. */
  function Fresh(fromSeq: nat): Client { Client(fromSeq, false, false, NoSource, true, []) }

  function Closed(c: Client): Client {
    c.(closed := true, retryArmed := false, source := if c.source.Listening? then Shut else c.source)
  }

  function Handled(c: Client, e: Event): Client {
    if e.number <= c.lastSeq then c
    else
      var seen := c.(lastSeq := e.number, delivered := c.delivered + [e]);
      if Terminal(e) then Closed(seen.(terminal := true)) else seen
  }

  function Reconnecting(c: Client): Client {
    if c.closed || c.terminal then c else c.(retryArmed := true)
  }

  /** The timer has run out; `succeeds` tells whether the browser could create the source. */
  function Reopened(c: Client, succeeds: bool): Client {
    if c.closed || c.terminal then c.(retryArmed := false)
    else if succeeds then c.(retryArmed := false, source := Listening(c.lastSeq))
    else Reconnecting(c.(retryArmed := false))
  }

  function Errored(c: Client): Client {
    Reconnecting(c.(source := if c.source.Listening? then Shut else c.source))
  }

  /** A client that is not closed either listens or is about to retry, never both and never neither; a closed one does
      nothing any more. A terminal client is closed. */
  predicate ClientInv(c: Client) {
    && (c.terminal ==> c.closed)
    && (c.closed ==> !c.retryArmed && !c.source.Listening?)
    && (!c.closed ==> (c.source.Listening? <==> !c.retryArmed))
  }

  lemma HandlersKeepInv(c: Client, e: Event, succeeds: bool)
    requires ClientInv(c)
    ensures ClientInv(Handled(c, e)) && ClientInv(Closed(c)) && ClientInv(Errored(c))
    ensures c.retryArmed ==> ClientInv(Reopened(c, succeeds))
  {
  }

  class Connection {
    var lastSeq: nat
    var closed: bool
    var terminal: bool
    var source: Source
    var retryArmed: bool
    ghost var delivered: seq<Event>

    ghost function Abs(): Client
      reads this
    {
      Client(lastSeq, closed, terminal, source, retryArmed, delivered)
    }

    /** Connecting opens the first source at once. */
    constructor (fromSeq: nat, succeeds: bool)
      ensures Abs() == Reopened(Fresh(fromSeq), succeeds) && ClientInv(Abs())
      ensures Abs() == Client(fromSeq, false, false, if succeeds then Listening(fromSeq) else NoSource, !succeeds, [])
    {
      lastSeq, closed, terminal, delivered := fromSeq, false, false, [];
      source, retryArmed := if succeeds then Listening(fromSeq) else NoSource, !succeeds;
    }

    method Close()
      requires ClientInv(Abs())
      modifies this
      ensures Abs() == Closed(old(Abs())) && ClientInv(Abs())
      ensures closed && !retryArmed && source == if old(source).Listening? then Shut else old(source)
      ensures lastSeq == old(lastSeq) && terminal == old(terminal) && delivered == old(delivered)
    {
      closed := true;
      if retryArmed { retryArmed := false; }
      if source.Listening? { source := Shut; }
    }

    /** `forward` tells whether the event callback was called. */
    method HandleEvent(e: Event) returns (forward: bool)
      requires ClientInv(Abs())
      modifies this
      ensures Abs() == Handled(old(Abs()), e) && ClientInv(Abs())
      ensures delivered == if forward then old(delivered) + [e] else old(delivered)
      ensures forward <==> e.number > old(lastSeq)
      ensures lastSeq == if forward then e.number else old(lastSeq)
      ensures var last := forward && (e.body.JobDone? || e.body.JobFailed?);
              && terminal == (old(terminal) || last) && closed == (old(closed) || last)
              && retryArmed == (old(retryArmed) && !last)
              && source == if last && old(source).Listening? then Shut else old(source)
    {
      if e.number <= lastSeq { return false; }
      lastSeq := e.number;
      delivered := delivered + [e];
      if Terminal(e) {
        terminal := true;
        closed := true;
        retryArmed := false;
        if source.Listening? { source := Shut; }
      }
      return true;
    }

    method ScheduleReconnect()
      modifies this
      ensures Abs() == Reconnecting(old(Abs()))
      ensures Abs() == old(Abs()).(retryArmed := old(retryArmed) || !(old(closed) || old(terminal)))
    {
      if closed || terminal { return; }
      retryArmed := true;
    }

    method Open(succeeds: bool)
      requires ClientInv(Abs()) && retryArmed
      modifies this
      ensures Abs() == Reopened(old(Abs()), succeeds) && ClientInv(Abs())
      ensures Abs() == old(Abs()).(retryArmed := !succeeds && !(old(closed) || old(terminal)),
                                   source := if succeeds && !(old(closed) || old(terminal))
                                             then Listening(old(lastSeq)) else old(source))
    {
      retryArmed := false;
      if closed || terminal { return; }
      if !succeeds {
        ScheduleReconnect();
        return;
      }
      source := Listening(lastSeq);
    }

    method OnError()
      requires ClientInv(Abs())
      modifies this
      ensures Abs() == Errored(old(Abs())) && ClientInv(Abs())
      ensures Abs() == old(Abs()).(source := if old(source).Listening? then Shut else old(source),
                                   retryArmed := old(retryArmed) || !(old(closed) || old(terminal)))
    {
      if source.Listening? { source := Shut; }
      ScheduleReconnect();
    }
  }
}
