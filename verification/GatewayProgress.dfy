/**
 What the gateway connection of src/lib/websocket.ts does not fail to do: pings, reconnects and handshakes take place
 exactly when the log of what happened says so.
 */
module GatewayProgress {
  import opened Options
  import opened Numbers
  import opened Gateway

  /** The last of the handshakes, calls of `connect` and heartbeat stops is a handshake. */
  predicate Shaken(log: seq<Entry>)
  {
    log != [] &&
    var last := log[|log| - 1];
    last.HandshakeDone? || (!last.Called? && !last.HeartbeatStopped? && Shaken(log[..|log| - 1]))
  }

  /** The last of the handshakes and heartbeat stops is a handshake. */
  predicate Beating(log: seq<Entry>)
  {
    log != [] &&
    var last := log[|log| - 1];
    last.HandshakeDone? || (!last.HeartbeatStopped? && Beating(log[..|log| - 1]))
  }

  predicate NumbersBelow(log: seq<Entry>, n: nat)
  {
    forall i | 0 <= i < |log| && log[i].PingSent? :: log[i].number <= n
  }

  predicate ProgressInv(s: State) { Readings(s.c, s.log) && NumbersBelow(s.log, s.c.pingCounter) }

  lemma SnocReadings(log: seq<Entry>, e: Entry)
    ensures Shaken(log + [e]) <==> e.HandshakeDone? || (!e.Called? && !e.HeartbeatStopped? && Shaken(log))
    ensures Beating(log + [e]) <==> e.HandshakeDone? || (!e.HeartbeatStopped? && Beating(log))
  {
    assert (log + [e])[..|log|] == log;
  }

  lemma NumbersGrow(log: seq<Entry>, n: nat, entries: seq<Entry>, m: nat)
    requires NumbersBelow(log, n) && n <= m && NumbersBelow(entries, m)
    ensures NumbersBelow(log + entries, m)
  {
  }

  /** What an entry, or a step without one, means for handshake and timer. */
  predicate MatchesReadings(c: Client, e: Option<Entry>, c': Client)
  {
    && (c'.heartbeat <==> e == Some(HandshakeDone) || (e != Some(HeartbeatStopped) && c.heartbeat))
    && (IsConnected(c') ==>
          if e == Some(Called) || e == Some(HeartbeatStopped) then !c'.handshake
          else (c'.handshake <==> e == Some(HandshakeDone) || c.handshake) && IsConnected(c))
  }

  predicate Readings(c: Client, log: seq<Entry>)
  {
    (IsConnected(c) ==> (c.handshake <==> Shaken(log))) && (c.heartbeat <==> Beating(log))
  }

  lemma EntryKeepsReadings(c: Client, log: seq<Entry>, e: Entry, c': Client)
    requires Readings(c, log) && MatchesReadings(c, Some(e), c')
    ensures Readings(c', log + [e])
  {
    SnocReadings(log, e);
  }

  lemma CalmStepMatchesReadings(c: Client, step: Step)
    requires SocketsInv(c) && Enabled(c, step) && Calm(c, step)
    ensures MatchesReadings(c, if EntriesOf(c, step) == [] then None
      else Some(EntriesOf(c, step)[0]), ClientAfter(c, step))
  {
  }

  lemma CalmStepKeepsReadings(s: State, step: Step)
    requires SocketsInv(s.c) && Readings(s.c, s.log) && Enabled(s.c, step) && Calm(s.c, step)
    ensures Readings(Apply(s, step).c, Apply(s, step).log)
  {
    var entries := EntriesOf(s.c, step);
    CalmStepMatchesReadings(s.c, step);
    if entries == [] {
      assert s.log + entries == s.log;
    } else {
      EntryKeepsReadings(s.c, s.log, entries[0], ClientAfter(s.c, step));
      assert entries == [entries[0]];
    }
  }

  /** The two entries of such a step stop the timer. */
  lemma StopEndsReadings(c: Client, step: Step)
    requires SocketsInv(c) && Enabled(c, step) && !Calm(c, step)
    ensures var c', entries := ClientAfter(c, step), EntriesOf(c, step);
      && !c'.heartbeat && (IsConnected(c') ==> !c'.handshake)
      && |entries| == 2 && !entries[0].HandshakeDone? && !entries[1].HandshakeDone?
      && (entries[0].HeartbeatStopped? || entries[1].HeartbeatStopped?)
  {
  }

  lemma StopKeepsReadings(s: State, step: Step)
    requires SocketsInv(s.c) && Enabled(s.c, step) && !Calm(s.c, step)
    ensures Readings(Apply(s, step).c, Apply(s, step).log)
  {
    var entries := EntriesOf(s.c, step);
    StopEndsReadings(s.c, step);
    assert entries == [entries[0], entries[1]];
    InTwo(s.log, entries[0], entries[1]);
    SnocReadings(s.log, entries[0]);
    SnocReadings(s.log + [entries[0]], entries[1]);
  }

  lemma StepNumbers(c: Client, step: Step)
    ensures c.pingCounter <= ClientAfter(c, step).pingCounter
    ensures NumbersBelow(EntriesOf(c, step), ClientAfter(c, step).pingCounter)
  {
  }

  lemma StepKeepsProgress(s: State, step: Step)
    requires SocketsInv(s.c) && ProgressInv(s) && Enabled(s.c, step)
    ensures ProgressInv(Apply(s, step))
  {
    if Calm(s.c, step) { CalmStepKeepsReadings(s, step); } else { StopKeepsReadings(s, step); }
    StepNumbers(s.c, step);
    NumbersGrow(s.log, s.c.pingCounter, EntriesOf(s.c, step), ClientAfter(s.c, step).pingCounter);
  }

  lemma {:induction false} RunKeepsProgress(s: State, steps: seq<Step>)
    requires SocketsInv(s.c) && ProgressInv(s) && IsRun(s, steps)
    ensures ProgressInv(After(s, steps))
    decreases |steps|
  {
    if steps != [] {
      StepKeepsSockets(s.c, steps[0]);
      StepKeepsProgress(s, steps[0]);
      RunKeepsProgress(Apply(s, steps[0]), steps[1..]);
    }
  }

  lemma ReachableProgress(s: State)
    requires Reachable(s)
    ensures Inv(s) && ProgressInv(s)
  {
    ReachableInv(s);
    var steps :| IsRun(START, steps) && After(START, steps) == s;
    RunKeepsProgress(START, steps);
  }

  /******* Main results *******/

  /** A close event schedules a reconnect exactly if nothing halts the connection and fewer than ten were scheduled
      since the last handshake or manual disconnect; it waits the base delay of its number and at most half as much
      again. */
  lemma ReconnectsExactly(s: State, socket: nat, random: real)
    requires Reachable(s) && Enabled(s.c, CloseEvent(socket, random))
    ensures var entries, n := EntriesOf(s.c, CloseEvent(socket, random)), |DelaysSince(s.log)|;
      if !Halted(s.log) && n < 10
      then |entries| == 2 && entries[0] == HeartbeatStopped && entries[1].Scheduled?
           && Base(n) <= entries[1].delay <= Base(n) * 3 / 2
      else entries == [HeartbeatStopped]
  {
    ReachableInv(s);
    DelayBounds(s.c.attempts, random);
  }

  /** The jitter uses its whole range: every number of milliseconds from the base delay up to half as much again is the
      delay for some random number. */
  lemma DelaysCoverTheRange(attempts: nat, delay: int) returns (random: real)
    requires 2 * Base(attempts) <= 2 * delay < 3 * Base(attempts)
    ensures 0.0 <= random < 1.0 && Delay(attempts, random) == delay
  {
    var b := Base(attempts) as real;
    random := Share(delay as real - b, b);
    assert random * b * 0.5 == delay as real - b;
    assert Round(delay as real) == delay;
  }

  lemma Share(part: real, b: real) returns (share: real)
    requires b > 0.0 && 0.0 <= 2.0 * part < b
    ensures 0.0 <= share < 1.0 && share * b == 2.0 * part
  {
    share := 2.0 * part / b;
  }

  /** The ping timer runs exactly from a handshake to the next heartbeat stop. */
  lemma TimerRunsExactly(s: State)
    requires Reachable(s)
    ensures s.c.heartbeat <==> Beating(s.log)
  {
    ReachableProgress(s);
  }

  predicate HasOpenSocket(c: Client)
  {
    c.current.Some? && c.current.value in c.sockets && c.sockets[c.current.value] == Open
  }

  /** When the timer fires, a ping goes out exactly if the current socket is open, had its handshake since the last call
      of `connect` or heartbeat stop, and has left fewer than three pings unanswered; it has a number that no ping had
      before.  With three unanswered the socket is closed instead, and otherwise nothing happens. */
  lemma PingsExactly(s: State, now: int)
    requires Reachable(s) && Enabled(s.c, PingDue(now))
    ensures var c', entries := ClientAfter(s.c, PingDue(now)), EntriesOf(s.c, PingDue(now));
      if HasOpenSocket(s.c) && Shaken(s.log) then
        if PingsSince(s.log) < 3
        then && |entries| == 1 && entries[0].PingSent? && entries[0].socket == s.c.current.value
             && c'.sockets == s.c.sockets && entries[0].number in c'.pingSent && c'.pingSent[entries[0].number] == now
             && forall i | 0 <= i < |s.log| && s.log[i].PingSent? :: s.log[i].number != entries[0].number
        else entries == [] && c' == s.c.(sockets := s.c.sockets[s.c.current.value := Closing])
      else entries == [] && c' == s.c
  {
    ReachableProgress(s);
  }

  /** A successful response completes the handshake exactly if none was completed since the last call of `connect` or
      heartbeat stop; the ping timer then runs and the count of reconnects starts again. */
  lemma HandshakesExactly(s: State, socket: nat, frame: Frame)
    requires Reachable(s) && Enabled(s.c, Receive(socket, frame))
    ensures HandshakeDone in EntriesOf(s.c, Receive(socket, frame))
      <==> frame.Response? && frame.ok && !Shaken(s.log)
    ensures HandshakeDone in EntriesOf(s.c, Receive(socket, frame)) ==>
      ClientAfter(s.c, Receive(socket, frame)).heartbeat && ClientAfter(s.c, Receive(socket, frame)).attempts == 0
  {
    ReachableProgress(s);
  }

  /** `connect` does something exactly if no socket is connecting or open; then nothing halts the connection any more,
      and if a socket can be made it becomes the current one. */
  lemma ConnectsExactly(s: State, socket: nat, works: bool)
    requires Reachable(s) && Enabled(s.c, Connect(socket, works))
    ensures var s' := Apply(s, Connect(socket, works));
      if forall k | k in s.c.sockets :: s.c.sockets[k] == Closing || s.c.sockets[k] == Closed
      then && s'.log == s.log + [Called] && !Halted(s'.log) && !s'.c.handshake
           && (works ==> s'.c.current == Some(socket) && s'.c.sockets == s.c.sockets[socket := Connecting])
      else s' == s
  {
    ReachableInv(s);
    Snoc(s.log, Called);
    assert s.log + [] == s.log;
  }
}
