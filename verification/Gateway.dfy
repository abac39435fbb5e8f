/**
 The gateway connection of src/lib/websocket.ts: refs that event handlers of several sockets read and write.

 A step is one handler call.  Sockets follow the WebSocket standard: `close` makes an opening or open socket
 closing, its close event arrives later, and messages are delivered only while a socket is open.  The timers of
 automatic reconnects and every caller of `connect` may call it at any moment.
 */
module Gateway {
  import opened Options
  import opened Numbers

  const MAX_MISSED_PONGS: nat := 3
  const MAX_RECONNECTS: nat := 10

  datatype ReadyState = Connecting | Open | Closing | Closed

  /** A response's id: one the hook could have given to a ping, another text beginning with "ping-", or anything
      else. */
  datatype FrameId = Ping(number: nat) | PingLike | Other

  /** `blocking` says whether the error message of a failed response is one that a retry cannot cure. */
  datatype Frame = Challenge | Response(id: FrameId, ok: bool, blocking: bool) | Event

  datatype Client = Client(
    sockets: map<nat, ReadyState>,
    current: Option<nat>,
    heartbeat: bool,
    handshake: bool,
    attempts: nat,
    manual: bool,
    blocked: bool,
    pingCounter: nat,
    pingSent: map<nat, int>,
    missed: nat)

  /** What happened, in order. */
  datatype Entry =
    | Called
    | HandshakeDone
    | PingSent(number: nat, socket: nat)
    | PongAccepted(number: nat, socket: nat)
    | HeartbeatStopped
    | Blocked
    | Disconnected
    | Scheduled(delay: int)

  datatype Step =
    | Connect(socket: nat, works: bool)
    | Opened(socket: nat)
    | Receive(socket: nat, frame: Frame)
    | PingDue(now: int)
    | CloseEvent(socket: nat, random: real)
    | Disconnect

  /******* Reconnect delay *******/

  function Base(attempts: nat): (b: int)
    ensures 1000 <= b <= 30000
  {
    if Pow2(attempts) * 1000 < 30000 then Pow2(attempts) * 1000 else 30000
  }

  function Delay(attempts: nat, random: real): int
  {
    Round(Base(attempts) as real + random * Base(attempts) as real * 0.5)
  }

  lemma RoundBounds(x: real, low: int, high: int)
    requires low as real <= x <= high as real
    ensures low <= Round(x) <= high
  {
    var r := Round(x);
    assert r as real <= x + 0.5 < r as real + 1.0;
    assert (high + 1) as real == high as real + 1.0;
    assert (r as real) < (high + 1) as real;
  }

  lemma NotNegative(x: real, y: real)
    requires x >= 0.0 && y >= 0.0
    ensures x * y >= 0.0
  {
  }

  lemma Share(random: real, b: real) returns (share: real)
    requires 0.0 <= random < 1.0 && b >= 0.0
    ensures share == random * b && 0.0 <= share <= b
  {
    share := random * b;
    NotNegative(random, b);
    NotNegative(1.0 - random, b);
    assert (1.0 - random) * b == b - share;
  }

  lemma HalfAgain(b: int, half: int, share: real)
    requires b == 2 * half && 0.0 <= share <= b as real
    ensures b <= Round(b as real + share * 0.5) <= 3 * half
  {
    assert b as real == 2.0 * half as real;
    assert (3 * half) as real == 3.0 * half as real;
    RoundBounds(b as real + share * 0.5, b, 3 * half);
  }

  lemma BaseIsEven(attempts: nat)
    ensures Base(attempts) == 2 * (Base(attempts) / 2) && 3 * (Base(attempts) / 2) == Base(attempts) * 3 / 2
  {
    if Base(attempts) < 30000 {
      assert Base(attempts) == 2 * (500 * Pow2(attempts));
    }
  }

  /** Jitter lengthens the base delay by at most half. */
  lemma DelayBounds(attempts: nat, random: real)
    requires 0.0 <= random < 1.0
    ensures Base(attempts) <= Delay(attempts, random) <= Base(attempts) * 3 / 2
  {
    var b := Base(attempts);
    var share := Share(random, b as real);
    BaseIsEven(attempts);
    HalfAgain(b, b / 2, share);
  }

  /******* The handlers *******/

  predicate IsLive(state: ReadyState) { state == Connecting || state == Open }

  /** `close()` on a socket. */
  function ClosedSocket(sockets: map<nat, ReadyState>, socket: nat): map<nat, ReadyState>
  {
    if socket in sockets && IsLive(sockets[socket]) then sockets[socket := Closing] else sockets
  }

  predicate IsConnected(c: Client)
  {
    c.current.Some? && c.current.value in c.sockets && IsLive(c.sockets[c.current.value])
  }

  predicate CanPing(c: Client)
  {
    c.current.Some? && c.current.value in c.sockets && c.sockets[c.current.value] == Open && c.handshake
  }

  function WithoutHeartbeat(c: Client): Client { c.(heartbeat := false, missed := 0, pingSent := map[]) }

  predicate Enabled(c: Client, step: Step)
  {
    match step
    case Connect(s, _) => s !in c.sockets
    case Opened(s) => s in c.sockets && c.sockets[s] == Connecting
    case Receive(s, _) => s in c.sockets && c.sockets[s] == Open
    case PingDue(_) => c.heartbeat
    case CloseEvent(s, random) => s in c.sockets && c.sockets[s] != Closed && 0.0 <= random < 1.0
    case Disconnect => true
  }

  /** A response with the id of a recorded ping; a time of zero counts as missing. */
  predicate Accepts(c: Client, id: FrameId) { id.Ping? && id.number in c.pingSent && c.pingSent[id.number] != 0 }

  function OnFrame(c: Client, socket: nat, frame: Frame): Client
  {
    if !frame.Response? then c
    else if frame.ok && !c.handshake then c.(handshake := true, attempts := 0, heartbeat := true)
    else if frame.id.Ping? then
      if Accepts(c, frame.id) then c.(pingSent := c.pingSent - {frame.id.number}, missed := 0) else c
    else if frame.id.PingLike? || frame.ok || !frame.blocking then c
    else WithoutHeartbeat(c).(blocked := true, sockets := ClosedSocket(c.sockets, socket))
  }

  predicate Schedules(c: Client) { !c.manual && !c.blocked && c.attempts < MAX_RECONNECTS }

  function ClientAfter(c: Client, step: Step): Client
  {
    match step
    case Connect(s, works) =>
      if IsConnected(c) then c
      else
        var d := c.(handshake := false, manual := false, blocked := false);
        if works then d.(sockets := c.sockets[s := Connecting], current := Some(s)) else d
    case Opened(s) => c.(sockets := c.sockets[s := Open])
    case Receive(s, frame) => OnFrame(c, s, frame)
    case PingDue(now) =>
      if !CanPing(c) then c
      else if c.missed >= MAX_MISSED_PONGS then c.(sockets := ClosedSocket(c.sockets, c.current.value))
      else c.(pingCounter := c.pingCounter + 1, pingSent := c.pingSent[c.pingCounter + 1 := now],
        missed := c.missed + 1)
    case CloseEvent(s, _) =>
      var d := WithoutHeartbeat(c).(sockets := c.sockets[s := Closed], handshake := false);
      if Schedules(c) then d.(attempts := c.attempts + 1) else d
    case Disconnect =>
      var sockets := if c.current.Some? then ClosedSocket(c.sockets, c.current.value) else c.sockets;
      WithoutHeartbeat(c).(sockets := sockets, current := None, manual := true, attempts := 0, handshake := false)
  }

  /** What the step adds to the log. */
  function EntriesOf(c: Client, step: Step): seq<Entry>
  {
    match step
    case Connect(_, _) => if IsConnected(c) then [] else [Called]
    case Opened(_) => []
    case Receive(s, frame) =>
      if !frame.Response? then []
      else if frame.ok && !c.handshake then [HandshakeDone]
      else if Accepts(c, frame.id) then [PongAccepted(frame.id.number, s)]
      else if frame.id.Other? && !frame.ok && frame.blocking then [Blocked, HeartbeatStopped]
      else []
    case PingDue(_) => if CanPing(c) && c.missed < MAX_MISSED_PONGS
      then [PingSent(c.pingCounter + 1, c.current.value)] else []
    case CloseEvent(_, random) =>
      if Schedules(c) then [HeartbeatStopped, Scheduled(Delay(c.attempts, random))] else [HeartbeatStopped]
    case Disconnect => [Disconnected, HeartbeatStopped]
  }

  class GatewayClient {
    var sockets: map<nat, ReadyState>
    var current: Option<nat>
    var heartbeat: bool
    var handshake: bool
    var attempts: nat
    var manual: bool
    var blocked: bool
    var pingCounter: nat
    var pingSent: map<nat, int>
    var missed: nat

    function Value(): Client
      reads this
    {
      Client(sockets, current, heartbeat, handshake, attempts, manual, blocked, pingCounter, pingSent, missed)
    }

    constructor ()
      ensures Value() == FRESH
    {
      sockets, current, heartbeat, handshake, attempts := map[], None, false, false, 0;
      manual, blocked, pingCounter, pingSent, missed := false, false, 0, map[], 0;
    }

    method StopHeartbeat()
      modifies this
      ensures Value() == WithoutHeartbeat(old(Value()))
    {
      heartbeat := false;
      missed := 0;
      pingSent := map[];
    }

    method CloseSocket(socket: nat)
      modifies this`sockets
      ensures sockets == ClosedSocket(old(sockets), socket)
    {
      if socket in sockets && IsLive(sockets[socket]) {
        sockets := sockets[socket := Closing];
      }
    }

    /** The callback of the ping interval. */
    method PingDue(now: int)
      modifies this
      ensures Value() == ClientAfter(old(Value()), Step.PingDue(now))
    {
      if current.None? || current.value !in sockets || sockets[current.value] != Open || !handshake {
        return;
      }
      if missed >= MAX_MISSED_PONGS {
        CloseSocket(current.value);
        return;
      }
      pingCounter := pingCounter + 1;
      pingSent := pingSent[pingCounter := now];
      missed := missed + 1;
    }

    method HandlePong(number: nat)
      modifies this
      ensures Value() == if Accepts(old(Value()), Ping(number))
                         then old(Value()).(pingSent := old(pingSent) - {number}, missed := 0) else old(Value())
    {
      if number in pingSent && pingSent[number] != 0 {
        pingSent := pingSent - {number};
        missed := 0;
      }
    }

    method HandleGatewayFrame(socket: nat, frame: Frame)
      modifies this
      ensures Value() == ClientAfter(old(Value()), Receive(socket, frame))
    {
      if !frame.Response? {
        return;
      }
      if frame.ok && !handshake {
        handshake := true;
        attempts := 0;
        heartbeat := true;
        return;
      }
      if frame.id.Ping? {
        HandlePong(frame.id.number);
        return;
      }
      if frame.id.PingLike? {
        return;
      }
      if !frame.ok && frame.blocking {
        blocked := true;
        StopHeartbeat();
        CloseSocket(socket);
      }
    }

    method Connect(socket: nat, works: bool)
      modifies this
      ensures Value() == ClientAfter(old(Value()), Step.Connect(socket, works))
    {
      if current.Some? && current.value in sockets && IsLive(sockets[current.value]) {
        return;
      }
      handshake := false;
      manual := false;
      blocked := false;
      if works {
        sockets := sockets[socket := Connecting];
        current := Some(socket);
      }
    }

    /** Gives the delay of the reconnect it schedules, if any. */
    method OnClose(socket: nat, random: real) returns (delay: Option<int>)
      modifies this
      ensures Value() == ClientAfter(old(Value()), CloseEvent(socket, random))
      ensures delay == if Schedules(old(Value())) then Some(Delay(old(attempts), random)) else None
    {
      sockets := sockets[socket := Closed];
      handshake := false;
      StopHeartbeat();
      if manual {
        return None;
      }
      if blocked {
        return None;
      }
      if attempts < MAX_RECONNECTS {
        delay := Some(Delay(attempts, random));
        attempts := attempts + 1;
      } else {
        delay := None;
      }
    }

    method Disconnect()
      modifies this
      ensures Value() == ClientAfter(old(Value()), Step.Disconnect)
    {
      manual := true;
      attempts := 0;
      StopHeartbeat();
      if current.Some? {
        CloseSocket(current.value);
        current := None;
      }
      handshake := false;
    }
  }

  const FRESH: Client := Client(map[], None, false, false, 0, false, false, 0, map[], 0)

  /******* Runs *******/

  datatype State = State(c: Client, log: seq<Entry>)

  function Apply(s: State, step: Step): State { State(ClientAfter(s.c, step), s.log + EntriesOf(s.c, step)) }

  predicate IsRun(s: State, steps: seq<Step>)
    decreases |steps|
  {
    steps == [] || (Enabled(s.c, steps[0]) && IsRun(Apply(s, steps[0]), steps[1..]))
  }

  function After(s: State, steps: seq<Step>): State
    decreases |steps|
  {
    if steps == [] then s else After(Apply(s, steps[0]), steps[1..])
  }

  const START: State := State(FRESH, [])

  ghost predicate Reachable(s: State) { exists steps :: IsRun(START, steps) && After(START, steps) == s }

  /******* Reading the log *******/

  /** Pings since the last accepted pong or heartbeat stop. */
  function PingsSince(log: seq<Entry>): nat
  {
    if log == [] then 0
    else
      var last, before := log[|log| - 1], log[..|log| - 1];
      if last.PongAccepted? || last.HeartbeatStopped? then 0
      else PingsSince(before) + (if last.PingSent? then 1 else 0)
  }

  /** The delays of the automatic reconnects since the last handshake or manual disconnect. */
  function DelaysSince(log: seq<Entry>): seq<int>
  {
    if log == [] then []
    else
      var last, before := log[|log| - 1], log[..|log| - 1];
      if last.HandshakeDone? || last.Disconnected? then []
      else if last.Scheduled? then DelaysSince(before) + [last.delay]
      else DelaysSince(before)
  }

  /** The last of the calls of `connect`, manual disconnects and blocking errors is not a call of `connect`. */
  predicate Halted(log: seq<Entry>)
  {
    log != [] &&
    var last := log[|log| - 1];
    if last.Disconnected? || last.Blocked? then true
    else if last.Called? then false
    else Halted(log[..|log| - 1])
  }

  /** The socket of ping n, if it was sent since the last heartbeat stop and has not been answered. */
  function Outstanding(log: seq<Entry>, n: nat): Option<nat>
  {
    if log == [] then None
    else
      var last := log[|log| - 1];
      if last.HeartbeatStopped? then None
      else if last.PongAccepted? && last.number == n then None
      else if last.PingSent? && last.number == n then Some(last.socket)
      else Outstanding(log[..|log| - 1], n)
  }

  /** `connect` was called since ping n was sent. */
  predicate CalledSince(log: seq<Entry>, n: nat)
  {
    log != [] &&
    var last := log[|log| - 1];
    if last.PingSent? && last.number == n then false
    else last.Called? || CalledSince(log[..|log| - 1], n)
  }

  /******* Invariants *******/

  /** Only the current socket can be connecting or open. */
  predicate SocketsInv(c: Client)
  {
    && (c.current.Some? ==> c.current.value in c.sockets)
    && forall s | s in c.sockets && IsLive(c.sockets[s]) :: c.current == Some(s)
  }

  predicate CountersInv(c: Client, log: seq<Entry>)
  {
    && c.missed == PingsSince(log) && c.missed <= MAX_MISSED_PONGS
    && c.attempts == |DelaysSince(log)| && c.attempts <= MAX_RECONNECTS
    && (forall i | 0 <= i < |DelaysSince(log)| :: Base(i) <= DelaysSince(log)[i] <= Base(i) * 3 / 2)
    && ((c.manual || c.blocked) <==> Halted(log))
  }

  /** The socket of an outstanding ping is the current one until `connect` is called, and no longer live afterwards. */
  predicate PlacedPing(c: Client, log: seq<Entry>, n: nat)
    requires Outstanding(log, n).Some?
  {
    var socket := Outstanding(log, n).value;
    && socket in c.sockets
    && (if CalledSince(log, n) then !IsLive(c.sockets[socket]) else c.current == Some(socket))
  }

  ghost predicate PingsInv(c: Client, log: seq<Entry>)
  {
    && (forall n: nat :: n in c.pingSent <==> Outstanding(log, n).Some?)
    && (forall n | n in c.pingSent :: n <= c.pingCounter && PlacedPing(c, log, n))
  }

  /** What the log itself keeps: each accepted pong answers an outstanding ping, and nothing is scheduled while
      halted. */
  predicate EntryInv(log: seq<Entry>, p: nat)
    requires p < |log|
  {
    match log[p]
    case PongAccepted(n, s) =>
      Outstanding(log[..p], n).Some? && (Outstanding(log[..p], n) == Some(s) <==> !CalledSince(log[..p], n))
    case Scheduled(_) => !Halted(log[..p])
    case _ => true
  }

  predicate LogInv(log: seq<Entry>) { forall p | 0 <= p < |log| :: EntryInv(log, p) }

  ghost predicate Inv(s: State) { SocketsInv(s.c) && CountersInv(s.c, s.log) && PingsInv(s.c, s.log) && LogInv(s.log) }

  /******* Preservation *******/

  lemma Snoc(log: seq<Entry>, e: Entry)
    ensures PingsSince(log + [e]) == if e.PongAccepted? || e.HeartbeatStopped? then 0
      else PingsSince(log) + (if e.PingSent? then 1 else 0)
    ensures DelaysSince(log + [e]) == if e.HandshakeDone? || e.Disconnected? then []
                                      else if e.Scheduled? then DelaysSince(log) + [e.delay] else DelaysSince(log)
    ensures Halted(log + [e]) <==> e.Disconnected? || e.Blocked? || (!e.Called? && Halted(log))
  {
    assert (log + [e])[..|log|] == log;
  }

  lemma SnocPing(log: seq<Entry>, e: Entry, n: nat)
    ensures Outstanding(log + [e], n) == if e.HeartbeatStopped? || (e.PongAccepted? && e.number == n) then None
                                         else if e.PingSent? && e.number == n then Some(e.socket)
                                           else Outstanding(log, n)
    ensures CalledSince(log + [e], n) <==> !(e.PingSent? && e.number == n) && (e.Called? || CalledSince(log, n))
  {
    assert (log + [e])[..|log|] == log;
  }

  lemma LogGrows(log: seq<Entry>, e: Entry)
    requires LogInv(log)
    requires e.Scheduled? ==> !Halted(log)
    requires e.PongAccepted? ==>
               Outstanding(log, e.number).Some? && (Outstanding(log, e.number) == Some(e.socket)
                 <==> !CalledSince(log, e.number))
    ensures LogInv(log + [e])
  {
    var longer := log + [e];
    forall p | 0 <= p < |longer| ensures EntryInv(longer, p) {
      if p < |log| {
        assert EntryInv(log, p);
        assert longer[..p] == log[..p];
      } else {
        assert longer[..p] == log;
      }
    }
  }

  /** The log after a step, entry by entry. */
  lemma InTwo(log: seq<Entry>, a: Entry, b: Entry)
    ensures log + [a, b] == (log + [a]) + [b]
  {
  }

  lemma StepKeepsSockets(c: Client, step: Step)
    requires SocketsInv(c) && Enabled(c, step)
    ensures SocketsInv(ClientAfter(c, step))
  {
  }

  predicate Calm(c: Client, step: Step) { |EntriesOf(c, step)| <= 1 }

  /** What an entry means for the counters and flags. */
  predicate Matches(c: Client, e: Entry, c': Client)
  {
    && c'.missed == (if e.PongAccepted? || e.HeartbeatStopped? then 0 else c.missed + (if e.PingSent? then 1 else 0))
    && c'.missed <= MAX_MISSED_PONGS
    && c'.attempts == (if e.HandshakeDone? || e.Disconnected? then 0 else c.attempts + (if e.Scheduled? then 1 else 0))
    && (e.Scheduled? ==> c.attempts < MAX_RECONNECTS && Base(c.attempts) <= e.delay <= Base(c.attempts) * 3 / 2)
    && ((c'.manual || c'.blocked) <==> e.Disconnected? || e.Blocked? || (!e.Called? && (c.manual || c.blocked)))
  }

  lemma EntryKeepsCounters(c: Client, log: seq<Entry>, e: Entry, c': Client)
    requires CountersInv(c, log) && Matches(c, e, c')
    ensures CountersInv(c', log + [e])
  {
    Snoc(log, e);
  }

  lemma CalmStepMatches(c: Client, step: Step)
    requires Enabled(c, step) && |EntriesOf(c, step)| == 1 && c.missed <= MAX_MISSED_PONGS
      && c.attempts <= MAX_RECONNECTS
    ensures Matches(c, EntriesOf(c, step)[0], ClientAfter(c, step))
  {
  }

  lemma CalmStepKeepsCounters(s: State, step: Step)
    requires CountersInv(s.c, s.log) && Enabled(s.c, step) && Calm(s.c, step)
    ensures CountersInv(Apply(s, step).c, Apply(s, step).log)
  {
    var entries := EntriesOf(s.c, step);
    if entries == [] {
      assert s.log + entries == s.log;
    } else {
      CalmStepMatches(s.c, step);
      EntryKeepsCounters(s.c, s.log, entries[0], ClientAfter(s.c, step));
      assert entries == [entries[0]];
    }
  }

  /** The client between the two entries of a step. */
  function Midway(c: Client, step: Step): Client
  {
    match step
    case CloseEvent(_, _) => WithoutHeartbeat(c)
    case Disconnect => c.(manual := true, attempts := 0)
    case _ => c.(blocked := true)
  }

  lemma StopMatches(c: Client, step: Step)
    requires Enabled(c, step) && |EntriesOf(c, step)| == 2 && c.missed <= MAX_MISSED_PONGS
    ensures Matches(c, EntriesOf(c, step)[0], Midway(c, step))
    ensures Matches(Midway(c, step), EntriesOf(c, step)[1], ClientAfter(c, step))
  {
    if step.CloseEvent? { DelayBounds(c.attempts, step.random); }
  }

  lemma StopKeepsCounters(s: State, step: Step)
    requires CountersInv(s.c, s.log) && Enabled(s.c, step) && !Calm(s.c, step)
    ensures CountersInv(Apply(s, step).c, Apply(s, step).log)
  {
    var entries := EntriesOf(s.c, step);
    assert entries == [entries[0], entries[1]];
    InTwo(s.log, entries[0], entries[1]);
    StopMatches(s.c, step);
    EntryKeepsCounters(s.c, s.log, entries[0], Midway(s.c, step));
    EntryKeepsCounters(Midway(s.c, step), s.log + [entries[0]], entries[1], ClientAfter(s.c, step));
  }

  /** What an entry, or a step without one, means for the outstanding pings. */
  predicate MatchesPings(c: Client, e: Option<Entry>, c': Client)
  {
    && c'.pingCounter >= c.pingCounter
    && c.sockets.Keys <= c'.sockets.Keys
    && (forall s | s in c.sockets && !IsLive(c.sockets[s]) :: !IsLive(c'.sockets[s]))
    && (e == Some(Called) ==> forall s | s in c.sockets :: !IsLive(c'.sockets[s]))
    && (c'.current == c.current || e == Some(Called) || e == Some(HeartbeatStopped))
    && c'.pingSent.Keys == (if e.None? then c.pingSent.Keys
                            else if e.value.HeartbeatStopped? then {}
                            else if e.value.PongAccepted? then c.pingSent.Keys - {e.value.number}
                            else if e.value.PingSent? then c.pingSent.Keys + {e.value.number} else c.pingSent.Keys)
    && (e.Some? && e.value.PingSent? ==>
          e.value.number == c'.pingCounter && c'.current == Some(e.value.socket) && e.value.socket in c'.sockets)
  }

  lemma EntryKeepsPings(c: Client, log: seq<Entry>, e: Entry, c': Client)
    requires PingsInv(c, log) && MatchesPings(c, Some(e), c')
    ensures PingsInv(c', log + [e])
  {
    forall n: nat { SnocPing(log, e, n); }
  }

  lemma NoEntryKeepsPings(c: Client, log: seq<Entry>, c': Client)
    requires PingsInv(c, log) && MatchesPings(c, None, c')
    ensures PingsInv(c', log)
  {
    forall n | n in c'.pingSent ensures n <= c'.pingCounter && PlacedPing(c', log, n) {
      assert n in c.pingSent && PlacedPing(c, log, n);
    }
  }

  lemma CalmStepMatchesPings(c: Client, step: Step)
    requires SocketsInv(c) && Enabled(c, step) && Calm(c, step)
    ensures MatchesPings(c, if EntriesOf(c, step) == [] then None
      else Some(EntriesOf(c, step)[0]), ClientAfter(c, step))
  {
  }

  lemma CalmStepKeepsPings(s: State, step: Step)
    requires SocketsInv(s.c) && PingsInv(s.c, s.log) && Enabled(s.c, step) && Calm(s.c, step)
    ensures PingsInv(Apply(s, step).c, Apply(s, step).log)
  {
    var entries := EntriesOf(s.c, step);
    CalmStepMatchesPings(s.c, step);
    if entries == [] {
      NoEntryKeepsPings(s.c, s.log, ClientAfter(s.c, step));
      assert s.log + entries == s.log;
    } else {
      EntryKeepsPings(s.c, s.log, entries[0], ClientAfter(s.c, step));
      assert entries == [entries[0]];
    }
  }

  lemma StopKeepsPings(s: State, step: Step)
    requires !Calm(s.c, step)
    ensures PingsInv(Apply(s, step).c, Apply(s, step).log)
  {
    var entries := EntriesOf(s.c, step);
    assert entries == [entries[0], entries[1]];
    InTwo(s.log, entries[0], entries[1]);
    forall n: nat ensures Outstanding(s.log + entries, n) == None {
      SnocPing(s.log, entries[0], n);
      SnocPing(s.log + [entries[0]], entries[1], n);
    }
  }

  lemma StepKeepsLog(s: State, step: Step)
    requires Inv(s) && Enabled(s.c, step)
    ensures LogInv(Apply(s, step).log)
  {
    var entries := EntriesOf(s.c, step);
    if |entries| == 0 {
      assert s.log + entries == s.log;
    } else if |entries| == 1 {
      assert entries == [entries[0]];
      LogGrows(s.log, entries[0]);
    } else {
      assert entries == [entries[0], entries[1]];
      InTwo(s.log, entries[0], entries[1]);
      LogGrows(s.log, entries[0]);
      Snoc(s.log, entries[0]);
      LogGrows(s.log + [entries[0]], entries[1]);
    }
  }

  lemma {:induction false} RunKeepsInv(s: State, steps: seq<Step>)
    requires Inv(s) && IsRun(s, steps)
    ensures Inv(After(s, steps))
    decreases |steps|
  {
    if steps != [] {
      StepKeepsSockets(s.c, steps[0]);
      StepKeepsLog(s, steps[0]);
      if Calm(s.c, steps[0]) {
        CalmStepKeepsCounters(s, steps[0]);
        CalmStepKeepsPings(s, steps[0]);
      } else {
        StopKeepsCounters(s, steps[0]);
        StopKeepsPings(s, steps[0]);
      }
      RunKeepsInv(Apply(s, steps[0]), steps[1..]);
    }
  }

  lemma ReachableInv(s: State)
    requires Reachable(s)
    ensures Inv(s)
  {
    var steps :| IsRun(START, steps) && After(START, steps) == s;
    RunKeepsInv(START, steps);
  }

  /******* Main results *******/

  /** The counter of missed pongs is the number of pings since the last accepted pong or heartbeat stop, at most
      three. */
  lemma MissedPongs(s: State)
    requires Reachable(s)
    ensures s.c.missed == PingsSince(s.log) <= MAX_MISSED_PONGS
  {
    ReachableInv(s);
  }

  /** Frames reach the handlers only from the current socket. */
  lemma FramesComeFromTheCurrentSocket(s: State, socket: nat, frame: Frame)
    requires Reachable(s) && Enabled(s.c, Receive(socket, frame))
    ensures s.c.current == Some(socket)
  {
    ReachableInv(s);
  }

  /** While frames come in on a socket, an outstanding ping was sent on it exactly if `connect` was not called since. */
  lemma OutstandingPingsExactly(s: State, socket: nat, frame: Frame, n: nat)
    requires Reachable(s) && Enabled(s.c, Receive(socket, frame)) && Outstanding(s.log, n).Some?
    ensures Outstanding(s.log, n) == Some(socket) <==> !CalledSince(s.log, n)
  {
    assert SocketsInv(s.c) && PlacedPing(s.c, s.log, n) by { ReachableInv(s); }
  }

  /** A response with the number of a ping is accepted as its pong exactly if the ping is outstanding, was stamped
      with a time other than zero, and the response is not taken for that of the handshake. */
  lemma AcceptedExactly(s: State, socket: nat, n: nat, ok: bool, blocking: bool)
    requires Reachable(s) && Enabled(s.c, Receive(socket, Response(Ping(n), ok, blocking)))
    ensures n in s.c.pingSent <==> Outstanding(s.log, n).Some?
    ensures EntriesOf(s.c, Receive(socket, Response(Ping(n), ok, blocking))) == [PongAccepted(n, socket)]
      <==> Outstanding(s.log, n).Some? && s.c.pingSent[n] != 0 && (s.c.handshake || !ok)
  {
    ReachableInv(s);
  }

  lemma {:induction false} PositionOfPing(log: seq<Entry>, n: nat) returns (q: nat)
    requires Outstanding(log, n).Some?
    ensures q < |log| && log[q] == PingSent(n, Outstanding(log, n).value)
    ensures forall k | q < k < |log| :: !log[k].HeartbeatStopped? && !(log[k].PongAccepted? && log[k].number == n)
    ensures CalledSince(log, n) <==> exists k :: q < k < |log| && log[k].Called?
  {
    var last, before := log[|log| - 1], log[..|log| - 1];
    if last.PingSent? && last.number == n {
      q := |log| - 1;
    } else {
      q := PositionOfPing(before, n);
      assert forall k | q < k < |before| :: before[k] == log[k];
      if last.Called? { assert log[|log| - 1].Called?; }
    }
  }

  /** An accepted pong answers a ping sent since the last heartbeat stop and not answered before.  That ping went out on
      the socket the pong came in on if and only if `connect` was not called in between; a heartbeat stop comes with
      every close event, so that call came before the close event of the ping's socket. */
  lemma AcceptedPongAnswersItsPing(s: State, p: nat) returns (q: nat)
    requires Reachable(s) && p < |s.log| && s.log[p].PongAccepted?
    ensures q < p && s.log[q].PingSent? && s.log[q].number == s.log[p].number
    ensures forall k | q < k < p ::
      !s.log[k].HeartbeatStopped? && !(s.log[k].PongAccepted? && s.log[k].number == s.log[p].number)
    ensures s.log[q].socket == s.log[p].socket <==> forall k | q < k < p :: !s.log[k].Called?
  {
    assert EntryInv(s.log, p) by { ReachableInv(s); }
    q := PositionOfPing(s.log[..p], s.log[p].number);
    assert forall k | q < k < p :: s.log[..p][k] == s.log[k];
  }

  function Sum(delays: seq<int>): int { if delays == [] then 0 else Sum(delays[..|delays| - 1]) + delays[|delays| - 1] }

  function BaseSum(n: nat): int { if n == 0 then 0 else BaseSum(n - 1) + Base(n - 1) }

  lemma {:induction false} SumBounds(delays: seq<int>)
    requires forall i | 0 <= i < |delays| :: Base(i) <= delays[i] <= Base(i) * 3 / 2
    ensures 2 * BaseSum(|delays|) <= 2 * Sum(delays) <= 3 * BaseSum(|delays|)
  {
    if delays != [] { SumBounds(delays[..|delays| - 1]); }
  }

  /** Between handshakes and manual disconnects at most ten automatic reconnects are scheduled; the i-th waits its base
      delay and at most half as much again, and so does their sum. */
  lemma AtMostTenReconnects(s: State)
    requires Reachable(s)
    ensures |DelaysSince(s.log)| == s.c.attempts <= MAX_RECONNECTS
    ensures forall i | 0 <= i < |DelaysSince(s.log)| :: Base(i) <= DelaysSince(s.log)[i] <= Base(i) * 3 / 2
    ensures 2 * BaseSum(s.c.attempts) <= 2 * Sum(DelaysSince(s.log)) <= 3 * BaseSum(s.c.attempts)
  {
    ReachableInv(s);
    SumBounds(DelaysSince(s.log));
  }

  /** All ten wait between 181 and 271.5 seconds together. */
  lemma TenReconnectsWait(s: State)
    requires Reachable(s) && s.c.attempts == MAX_RECONNECTS
    ensures 181_000 <= Sum(DelaysSince(s.log)) <= 271_500
  {
    AtMostTenReconnects(s);
    assert Pow2(4) == 16;
    assert BaseSum(5) == 31_000;
    assert Base(5) == 30000 && Base(6) == 30000 && Base(7) == 30000 && Base(8) == 30000 && Base(9) == 30000 by {
      assert Pow2(5) == 32;
      assert Pow2(7) == 128;
      assert Pow2(9) == 512;
    }
    assert BaseSum(7) == 91_000;
    assert BaseSum(10) == 181_000;
  }

  lemma {:induction false} HaltedFrom(log: seq<Entry>, i: nat)
    requires i < |log| && (log[i].Disconnected? || log[i].Blocked?)
    ensures Halted(log) || exists k :: i < k < |log| && log[k].Called?
  {
    var last, before := log[|log| - 1], log[..|log| - 1];
    if i < |log| - 1 {
      HaltedFrom(before, i);
      if !Halted(before) {
        var k :| i < k < |before| && before[k].Called?;
        assert log[k].Called?;
      }
      if last.Called? { assert log[|log| - 1].Called?; }
    }
  }

  /** After a manual disconnect or an error that a retry cannot cure, nothing is scheduled until `connect` is called. */
  lemma NothingScheduledWhileHalted(s: State, i: nat, j: nat)
    requires Reachable(s) && i < j < |s.log|
    requires (s.log[i].Disconnected? || s.log[i].Blocked?) && s.log[j].Scheduled?
    ensures exists k :: i < k < j && s.log[k].Called?
  {
    assert EntryInv(s.log, j) by { ReachableInv(s); }
    HaltedFrom(s.log[..j], i);
    var k :| i < k < j && s.log[..j][k].Called?;
    assert s.log[k].Called?;
  }

  /******* A late pong that counts *******/

  lemma {:induction false} RunAppend(s: State, steps: seq<Step>, step: Step)
    requires IsRun(s, steps) && Enabled(After(s, steps).c, step)
    ensures IsRun(s, steps + [step]) && After(s, steps + [step]) == Apply(After(s, steps), step)
    decreases |steps|
  {
    if steps == [] {
      assert steps + [step] == [step];
      assert [step][1..] == [];
    } else {
      assert (steps + [step])[1..] == steps[1..] + [step];
      RunAppend(Apply(s, steps[0]), steps[1..], step);
    }
  }

  lemma Extend(s: State, step: Step, next: State)
    requires Reachable(s) && Enabled(s.c, step)
    requires next.c == ClientAfter(s.c, step) && next.log == s.log + EntriesOf(s.c, step)
    ensures Reachable(next)
  {
    var steps :| IsRun(START, steps) && After(START, steps) == s;
    RunAppend(START, steps, step);
    assert next == Apply(s, step);
    assert After(START, steps + [step]) == next;
  }

  lemma FirstSocketTimesOut() returns (s: State)
    ensures Reachable(s) && s.log == [Called, HandshakeDone, PingSent(1, 0), PingSent(2, 0), PingSent(3, 0)]
    ensures s.c == Client(map[0 := Closing], Some(0), true, true, 0, false, false, 3, map[1 := 5, 2 := 5, 3 := 5], 3)
  {
    var good := Response(Other, true, false);
    assert IsRun(START, []) && After(START, []) == START;
    var a := State(FRESH.(sockets := map[0 := Connecting], current := Some(0)), [Called]);
    Extend(START, Connect(0, true), a);
    var b := a.(c := a.c.(sockets := map[0 := Open]));
    Extend(a, Opened(0), b);
    var c := State(b.c.(handshake := true, heartbeat := true), [Called, HandshakeDone]);
    Extend(b, Receive(0, good), c);
    var d := State(c.c.(pingCounter := 1, pingSent := map[1 := 5], missed := 1), c.log + [PingSent(1, 0)]);
    Extend(c, PingDue(5), d);
    var e := State(c.c.(pingCounter := 2, pingSent := map[1 := 5, 2 := 5], missed := 2), d.log + [PingSent(2, 0)]);
    Extend(d, PingDue(5), e);
    var f := State(c.c.(pingCounter := 3, pingSent := map[1 := 5, 2 := 5, 3 := 5], missed := 3),
      e.log + [PingSent(3, 0)]);
    Extend(e, PingDue(5), f);
    s := f.(c := f.c.(sockets := map[0 := Closing]));
    Extend(f, PingDue(5), s);
  }

  /** The exception in AcceptedPongAnswersItsPing does occur: `connect` during the closing of a socket whose pings are
      unanswered lets a response to one of them, arriving on the new socket, reset the counter. */
  lemma LatePongCanCount() returns (s: State)
    ensures Reachable(s) && |s.log| == 8 && s.log[2] == PingSent(1, 0) && s.log[7] == PongAccepted(1, 1)
      && s.c.missed == 0
  {
    var good := Response(Other, true, false);
    var a := FirstSocketTimesOut();
    var b := State(a.c.(sockets := map[0 := Closing, 1 := Connecting], current := Some(1), handshake := false),
      a.log + [Called]);
    Extend(a, Connect(1, true), b);
    var c := b.(c := b.c.(sockets := map[0 := Closing, 1 := Open]));
    Extend(b, Opened(1), c);
    var d := State(c.c.(handshake := true), c.log + [HandshakeDone]);
    Extend(c, Receive(1, good), d);
    s := State(d.c.(pingSent := map[2 := 5, 3 := 5], missed := 0), d.log + [PongAccepted(1, 1)]);
    Extend(d, Receive(1, Response(Ping(1), true, false)), s);
  }
}
