/**
 Lines over the provisioner socket: the daemon's handler (ops/mc-provisioner-daemon.js) and the client's
 (src/lib/provisioner-client.ts) each see a text in arbitrary chunks and cut a line out of it.
 A line is what JSON.stringify yields, which holds no newline character.

 The client's promise is settled by its handlers for data, errors, the timeout and the closing of the socket, whatever
 the order of these events.
 */
module SocketFraming {
  import opened Options

  /** `indexOf('\n')`; the length of the text where that gives -1. */
  function LineEnd(text: string): (i: nat)
    ensures i <= |text| && (forall k | 0 <= k < i :: text[k] != '\n') && (i < |text| ==> text[i] == '\n')
  {
    if text == "" || text[0] == '\n' then 0 else 1 + LineEnd(text[1..])
  }

  predicate HasLine(text: string) { LineEnd(text) < |text| }

  function FirstLine(text: string): string { text[..LineEnd(text)] }

  function Rest(text: string): string
    requires HasLine(text)
  {
    text[LineEnd(text) + 1..]
  }

  lemma LineEndIs(text: string, i: nat)
    requires i < |text| && text[i] == '\n' && forall k | 0 <= k < i :: text[k] != '\n'
    ensures LineEnd(text) == i
  {
    assert LineEnd(text) <= i;
  }

  function Concat(chunks: seq<string>): string
  {
    if chunks == [] then "" else Concat(chunks[..|chunks| - 1]) + chunks[|chunks| - 1]
  }

  /******* The client *******/

  /** `Line` stands for the line the promise is settled on by parsing it, `Failed` for a rejection. */
  datatype Promise = Pending | Line(text: string) | Failed

  datatype Client = Client(raw: string, promise: Promise, armed: bool, closed: bool)

  datatype Event = Data(chunk: string) | Error | TimerFires | Close

  const NEW_CLIENT: Client := Client("", Pending, true, false)

  /** A closed socket is silent, and a timer that was cleared or has fired does not fire. */
  predicate Possible(c: Client, e: Event) { if e.TimerFires? then c.armed else !c.closed }

  /** A promise settles once. */
  function Settled(promise: Promise, end: Promise): Promise { if promise.Pending? then end else promise }

  /** The client after an event; one that is not possible does not happen. */
  function Next(c: Client, e: Event): Client
  {
    if !Possible(c, e) then c
    else
      match e
      case Data(chunk) =>
        var raw := c.raw + chunk;
        if HasLine(raw) then c.(raw := raw, promise := Settled(c.promise, Line(FirstLine(raw))), armed := false)
        else c.(raw := raw)
      case Error => c.(promise := Settled(c.promise, Failed), armed := false)
      case TimerFires => c.(promise := Settled(c.promise, Failed), armed := false)
      case Close => c.(closed := true, armed := c.armed && c.raw != "")
  }

  function After(c: Client, events: seq<Event>): Client
    decreases |events|
  {
    if events == [] then c else After(Next(c, events[0]), events[1..])
  }

  class ResponseReader {
    var raw: string
    var promise: Promise
    var armed: bool
    var closed: bool

    function Value(): Client
      reads this
    {
      Client(raw, promise, armed, closed)
    }

    constructor ()
      ensures Value() == NEW_CLIENT
    {
      raw, promise, armed, closed := "", Pending, true, false;
    }

    method Settle(end: Promise)
      modifies this`promise
      ensures promise == Settled(old(promise), end)
    {
      if promise.Pending? {
        promise := end;
      }
    }

    method OnData(chunk: string)
      requires !closed
      modifies this
      ensures Value() == Next(old(Value()), Data(chunk))
    {
      raw := raw + chunk;
      var i := FindNewline(raw);
      if i < |raw| {
        var line := raw[..i];
        armed := false;
        Settle(Line(line));
      }
    }

    method OnError()
      requires !closed
      modifies this
      ensures Value() == Next(old(Value()), Error)
    {
      armed := false;
      Settle(Failed);
    }

    method OnTimeout()
      requires armed
      modifies this
      ensures Value() == Next(old(Value()), TimerFires)
    {
      armed := false;
      Settle(Failed);
    }

    method OnClose()
      requires !closed
      modifies this
      ensures Value() == Next(old(Value()), Close)
    {
      closed := true;
      if raw == "" {
        armed := false;
      }
    }
  }

  method FindNewline(text: string) returns (i: nat)
    ensures i == LineEnd(text)
  {
    i := 0;
    while i < |text| && text[i] != '\n'
      invariant i <= |text| && forall k | 0 <= k < i :: text[k] != '\n'
    {
      i := i + 1;
    }
    if i < |text| { LineEndIs(text, i); }
  }

  lemma LineStays(text: string, more: string)
    requires HasLine(text)
    ensures HasLine(text + more) && FirstLine(text + more) == FirstLine(text)
    ensures Rest(text + more) == Rest(text) + more
  {
    assert forall k | 0 <= k < |text| :: (text + more)[k] == text[k];
    LineEndIs(text + more, LineEnd(text));
  }

  function Chunks(chunks: seq<string>): (r: seq<Event>)
    ensures |r| == |chunks| && forall i | 0 <= i < |chunks| :: r[i] == Data(chunks[i])
  {
    seq(|chunks|, i requires 0 <= i < |chunks| => Data(chunks[i]))
  }

  lemma {:induction false} AfterAppend(c: Client, events: seq<Event>, e: Event)
    ensures After(c, events + [e]) == Next(After(c, events), e)
    decreases |events|
  {
    if events == [] {
      assert events + [e] == [e] && [e][1..] == [];
    } else {
      assert (events + [e])[1..] == events[1..] + [e];
      AfterAppend(Next(c, events[0]), events[1..], e);
    }
  }

  /** However the text is cut into chunks, the promise settles exactly if the text holds a newline, and on what comes
      before. */
  lemma {:induction false} ChunksDoNotMatter(chunks: seq<string>)
    ensures var c, text := After(NEW_CLIENT, Chunks(chunks)), Concat(chunks);
      c == Client(text, if HasLine(text) then Line(FirstLine(text)) else Pending, !HasLine(text), false)
  {
    if chunks != [] {
      var before, chunk := chunks[..|chunks| - 1], chunks[|chunks| - 1];
      ChunksDoNotMatter(before);
      assert Chunks(chunks) == Chunks(before) + [Data(chunk)];
      AfterAppend(NEW_CLIENT, Chunks(before), Data(chunk));
      if HasLine(Concat(before)) { LineStays(Concat(before), chunk); }
    }
  }

  /******* A promise that never settles *******/

  lemma {:induction false} SettledStays(c: Client, events: seq<Event>)
    requires !c.promise.Pending?
    ensures After(c, events).promise == c.promise
    decreases |events|
  {
    if events != [] { SettledStays(Next(c, events[0]), events[1..]); }
  }

  /** Closed without a timer: nothing happens any more. */
  lemma {:induction false} DeadStays(c: Client, events: seq<Event>)
    requires c.closed && !c.armed
    ensures After(c, events) == c
    decreases |events|
  {
    if events != [] { DeadStays(c, events[1..]); }
  }

  ghost predicate NeverSettles(c: Client) { forall events :: After(c, events).promise.Pending? }

  /** A pending promise never settles exactly if the socket is closed and the timer is not armed. */
  lemma NeverSettlesExactly(c: Client)
    ensures NeverSettles(c) <==> c.promise.Pending? && c.closed && !c.armed
  {
    if c.promise.Pending? && c.closed && !c.armed {
      forall events ensures After(c, events).promise.Pending? { DeadStays(c, events); }
    } else if !c.promise.Pending? {
      assert After(c, []).promise == c.promise;
    } else {
      var e := if c.closed then TimerFires else Error;
      assert [e][1..] == [];
      assert After(c, [e]).promise == Failed;
    }
  }

  /** The socket was closed before an error, the timeout or a non-empty chunk came. */
  predicate ClosedSilently(events: seq<Event>)
  {
    exists k :: 0 <= k < |events| && events[k] == Close && forall i | 0 <= i < k :: events[i] == Data("")
  }

  lemma ClosedSilentlyStep(events: seq<Event>)
    requires events != []
    ensures ClosedSilently(events) <==> events[0] == Close || (events[0] == Data("") && ClosedSilently(events[1..]))
  {
    var rest := events[1..];
    if k :| 0 <= k < |events| && events[k] == Close && forall i | 0 <= i < k :: events[i] == Data("") {
      if k > 0 {
        assert rest[k - 1] == Close && forall i | 0 <= i < k - 1 :: rest[i] == events[i + 1];
      }
    }
    if k :| 0 <= k < |rest| && rest[k] == Close && forall i | 0 <= i < k :: rest[i] == Data("") {
      if events[0] == Data("") {
        assert events[k + 1] == Close && forall i | 1 <= i < k + 1 :: events[i] == rest[i - 1];
      }
    }
  }

  /** Something was read or settled, and the timer is armed while the promise is pending. */
  predicate Attended(c: Client) { !c.promise.Pending? || (c.armed && c.raw != "") }

  lemma {:induction false} AttendedStays(c: Client, events: seq<Event>)
    requires Attended(c)
    ensures Attended(After(c, events))
    decreases |events|
  {
    if events != [] { AttendedStays(Next(c, events[0]), events[1..]); }
  }

  /** From the start: the promise is left pending for good exactly if the socket is closed before an error, the timeout
      or a non-empty chunk; in every other case a pending promise has its timer armed. */
  lemma {:induction false} NeverSettlesByEvents(events: seq<Event>)
    ensures var c := After(NEW_CLIENT, events);
      && (ClosedSilently(events) ==> c == Client("", Pending, false, true))
      && (!ClosedSilently(events) ==> c == NEW_CLIENT || Attended(c))
    decreases |events|
  {
    if events != [] {
      var e, rest := events[0], events[1..];
      ClosedSilentlyStep(events);
      if e == Close {
        DeadStays(Next(NEW_CLIENT, e), rest);
      } else if e == Data("") {
        assert Next(NEW_CLIENT, e) == NEW_CLIENT;
        NeverSettlesByEvents(rest);
      } else {
        assert Attended(Next(NEW_CLIENT, e));
        AttendedStays(Next(NEW_CLIENT, e), rest);
      }
    }
  }

  /** After any events: the promise never settles exactly if the socket was closed before an error, the timeout or a
      non-empty chunk, and a pending promise that can still settle has its timer armed. */
  lemma StuckExactly(events: seq<Event>)
    ensures var c := After(NEW_CLIENT, events);
      && (NeverSettles(c) <==> ClosedSilently(events))
      && (c.promise.Pending? && !NeverSettles(c) ==> c.armed)
  {
    NeverSettlesByEvents(events);
    NeverSettlesExactly(After(NEW_CLIENT, events));
  }

  /******* The daemon *******/

  datatype Handler = Handler(buf: string, handled: seq<string>)

  /** Each data event handles at most one line. */
  function Take(h: Handler, chunk: string): Handler
  {
    var buf := h.buf + chunk;
    if HasLine(buf) then Handler(Rest(buf), h.handled + [FirstLine(buf)]) else Handler(buf, h.handled)
  }

  function TakeAll(chunks: seq<string>): Handler
  {
    if chunks == [] then Handler("", []) else Take(TakeAll(chunks[..|chunks| - 1]), chunks[|chunks| - 1])
  }

  class RequestHandler {
    var buf: string
    var handled: seq<string>

    constructor ()
      ensures Handler(buf, handled) == TakeAll([])
    {
      buf, handled := "", [];
    }

    method OnData(chunk: string)
      modifies this
      ensures Handler(buf, handled) == Take(old(Handler(buf, handled)), chunk)
    {
      buf := buf + chunk;
      var i := FindNewline(buf);
      if i == |buf| {
        return;
      }
      handled := handled + [buf[..i]];
      buf := buf[i + 1..];
    }
  }

  function Lines(lines: seq<string>): string
  {
    if lines == [] then "" else Lines(lines[..|lines| - 1]) + lines[|lines| - 1] + "\n"
  }

  lemma LineAndRest(text: string)
    requires HasLine(text)
    ensures text == FirstLine(text) + "\n" + Rest(text) && '\n' !in FirstLine(text)
  {
  }

  lemma LinesOneMore(lines: seq<string>, line: string)
    ensures Lines(lines + [line]) == Lines(lines) + (line + "\n")
  {
    assert (lines + [line])[..|lines|] == lines;
  }

  lemma Assoc(a: string, b: string, c: string)
    ensures (a + b) + c == a + (b + c)
  {
  }

  lemma TakeConserves(h: Handler, chunk: string)
    ensures var h' := Take(h, chunk); Lines(h'.handled) + h'.buf == (Lines(h.handled) + h.buf) + chunk
  {
    var buf := h.buf + chunk;
    Assoc(Lines(h.handled), h.buf, chunk);
    if HasLine(buf) {
      LineAndRest(buf);
      LinesOneMore(h.handled, FirstLine(buf));
      Assoc(Lines(h.handled), FirstLine(buf) + "\n", Rest(buf));
    }
  }

  /** Nothing is lost, repeated or invented: the handled lines, each with its newline, and the buffer are what was
      received; no handled line holds a newline, and each data event handles at most one. */
  lemma {:induction false} Conserved(chunks: seq<string>)
    ensures var h := TakeAll(chunks);
      && Lines(h.handled) + h.buf == Concat(chunks)
      && |h.handled| <= |chunks|
      && forall k | 0 <= k < |h.handled| :: '\n' !in h.handled[k]
  {
    if chunks != [] {
      var before := chunks[..|chunks| - 1];
      Conserved(before);
      TakeConserves(TakeAll(before), chunks[|chunks| - 1]);
    }
  }

  lemma NoNewlineBefore(chunks: seq<string>, line: string)
    requires chunks != [] && Concat(chunks) == line + "\n" && '\n' !in line && chunks[|chunks| - 1] != ""
    ensures '\n' !in Concat(chunks[..|chunks| - 1])
  {
    var before := Concat(chunks[..|chunks| - 1]);
    assert forall k | 0 <= k < |before| :: before[k] == (line + "\n")[k];
    assert |before| <= |line|;
  }

  lemma {:induction false} NothingHandled(chunks: seq<string>)
    requires '\n' !in Concat(chunks)
    ensures TakeAll(chunks) == Handler(Concat(chunks), [])
  {
    if chunks != [] {
      var before := Concat(chunks[..|chunks| - 1]);
      assert forall k | 0 <= k < |before| :: before[k] == Concat(chunks)[k];
      NothingHandled(chunks[..|chunks| - 1]);
    }
  }

  /** One request line, in whatever chunks it arrives, is handled exactly once and whole. */
  lemma {:induction false} OneRequestIsHandledOnce(chunks: seq<string>, line: string)
    requires Concat(chunks) == line + "\n" && '\n' !in line
    ensures TakeAll(chunks) == Handler("", [line])
  {
    var before, last := chunks[..|chunks| - 1], chunks[|chunks| - 1];
    if last == "" {
      assert Concat(before) == Concat(chunks);
      OneRequestIsHandledOnce(before, line);
    } else {
      NoNewlineBefore(chunks, line);
      NothingHandled(before);
      LineEndIs(line + "\n", |line|);
      assert FirstLine(line + "\n") == line && Rest(line + "\n") == "";
    }
  }

  /** The whole exchange: the daemon handles the client's line once, and the client settles on the daemon's line,
      however the two are cut up. */
  lemma ExchangeArrivesWhole(request: string, response: string, there: seq<string>, back: seq<string>)
    requires '\n' !in request && '\n' !in response
    requires Concat(there) == request + "\n" && Concat(back) == response + "\n"
    ensures TakeAll(there).handled == [request] && After(NEW_CLIENT, Chunks(back)).promise == Line(response)
  {
    OneRequestIsHandledOnce(there, request);
    ChunksDoNotMatter(back);
    LineEndIs(response + "\n", |response|);
  }

  /******* Lines that wait *******/

  function Newlines(text: string): nat
  {
    if text == "" then 0 else (if text[0] == '\n' then 1 else 0) + Newlines(text[1..])
  }

  /** The newlines in the chunks from the k-th on. */
  function NewlinesFrom(chunks: seq<string>, k: nat): nat
    decreases |chunks| - k
  {
    if k >= |chunks| then 0 else Newlines(chunks[k]) + NewlinesFrom(chunks, k + 1)
  }

  lemma {:induction false} NewlinesAppend(a: string, b: string)
    ensures Newlines(a + b) == Newlines(a) + Newlines(b)
  {
    if a == "" {
      assert a + b == b;
    } else {
      assert (a + b)[1..] == a[1..] + b;
      NewlinesAppend(a[1..], b);
    }
  }

  lemma {:induction false} NoNewlines(text: string)
    ensures Newlines(text) == 0 <==> '\n' !in text
  {
    if text != "" {
      NoNewlines(text[1..]);
      assert text == [text[0]] + text[1..];
    }
  }

  lemma {:induction false} NewlinesFromAppend(chunks: seq<string>, chunk: string, k: nat)
    requires k <= |chunks|
    ensures NewlinesFrom(chunks + [chunk], k) == NewlinesFrom(chunks, k) + Newlines(chunk)
    decreases |chunks| - k
  {
    if k < |chunks| {
      NewlinesFromAppend(chunks, chunk, k + 1);
    } else {
      assert NewlinesFrom(chunks + [chunk], k + 1) == 0;
    }
  }

  /** One line less waits after an event than before it and in its chunk, if any does. */
  lemma TakeWaiting(h: Handler, chunk: string)
    ensures var waiting := Newlines(h.buf) + Newlines(chunk);
      Newlines(Take(h, chunk).buf) == if waiting == 0 then 0 else waiting - 1
  {
    var buf := h.buf + chunk;
    NewlinesAppend(h.buf, chunk);
    if HasLine(buf) {
      LineAndRest(buf);
      NoNewlines(FirstLine(buf));
      NewlinesAppend(FirstLine(buf) + "\n", Rest(buf));
      NewlinesAppend(FirstLine(buf), "\n");
      assert Newlines("\n") == 1;
    } else {
      NoNewlines(buf);
    }
  }

  /** From every chunk on no more lines end than chunks come, but for w of them. */
  predicate KeepsUp(chunks: seq<string>, w: nat)
  {
    forall k | 0 <= k < |chunks| :: NewlinesFrom(chunks, k) <= |chunks| - k + w
  }

  lemma KeepsUpAppend(chunks: seq<string>, chunk: string, w: nat)
    ensures var n := Newlines(chunk); KeepsUp(chunks + [chunk], w) <==> n <= w + 1 && KeepsUp(chunks, w + 1 - n)
  {
    var n, longer := Newlines(chunk), chunks + [chunk];
    forall k | 0 <= k <= |chunks| ensures NewlinesFrom(longer, k) == NewlinesFrom(chunks, k) + n {
      NewlinesFromAppend(chunks, chunk, k);
    }
    if KeepsUp(longer, w) {
      assert NewlinesFrom(longer, |chunks|) <= 1 + w;
      forall k | 0 <= k < |chunks| ensures NewlinesFrom(chunks, k) <= |chunks| - k + (w + 1 - n) {
        assert NewlinesFrom(longer, k) <= |longer| - k + w;
      }
    }
  }

  /** At most w complete lines wait in the buffer exactly if the chunks keep up but for w of them. */
  lemma {:induction false} WaitingExactly(chunks: seq<string>, w: nat)
    ensures Newlines(TakeAll(chunks).buf) <= w <==> KeepsUp(chunks, w)
  {
    if chunks != [] {
      var before, chunk := chunks[..|chunks| - 1], chunks[|chunks| - 1];
      TakeWaiting(TakeAll(before), chunk);
      assert chunks == before + [chunk];
      KeepsUpAppend(before, chunk, w);
      if Newlines(chunk) <= w + 1 {
        WaitingExactly(before, w + 1 - Newlines(chunk));
      }
    }
  }

  /** No complete line is left in the buffer, so that the handled lines are all there are, exactly if from every chunk
      on no more lines end than chunks come. */
  lemma AllLinesHandledExactly(chunks: seq<string>)
    ensures '\n' !in TakeAll(chunks).buf <==> KeepsUp(chunks, 0)
  {
    WaitingExactly(chunks, 0);
    NoNewlines(TakeAll(chunks).buf);
  }

  /** Two lines in one chunk: the second waits in the buffer for the next data event. */
  lemma SecondLineWaits(a: string, b: string)
    requires '\n' !in a && '\n' !in b
    ensures TakeAll([a + "\n" + b + "\n"]) == Handler(b + "\n", [a])
  {
    var text, rest := a + "\n" + b + "\n", b + "\n";
    assert text == a + "\n" + rest;
    assert TakeAll([text][..0]) == Handler("", []);
    assert "" + text == text;
    LineEndIs(text, |a|);
    assert FirstLine(text) == a && Rest(text) == rest;
    assert Take(Handler("", []), text) == Handler(rest, [a]);
  }
}
