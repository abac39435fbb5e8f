/**
 Webhook delivery with retries, circuit breaker and pruning (src/lib/webhooks.ts).

 The process is a state machine whose steps are the code segments between two `await`s.
 `deliverWebhook` is cut at the network call into a send and a landing; `processWebhookRetries`
 is cut into the select-and-clear segment and one send per claimed row.  Any number of
 deliveries and of retry passes may be under way at once, in any interleaving.

 `sends`, `claimed`, `log` and `outcomes` are history: no step reads them to decide anything.
 */
module Webhooks {
  import opened Options
  import opened Numbers

  /******* Constants *******/

  const BACKOFF_SECONDS: seq<int> := [30, 300, 1800, 7200, 28800]
  const KEEP_PER_HOOK: nat := 200
  const RETRY_BATCH: nat := 50

  /******* Tables *******/

  type HookId = nat

  datatype Hook = Hook(enabled: bool, failures: nat)

  datatype Delivery = Delivery(hook: HookId, attempt: nat, parent: Option<nat>, nextRetryAt: Option<int>,
      createdAt: int)

  /** `nextId` is the AUTOINCREMENT counter: ids are never reused. */
  datatype Db = Db(hooks: map<HookId, Hook>, deliveries: map<nat, Delivery>, nextId: nat)

  /** One call of `deliverWebhook`. */
  datatype Send = Send(hook: HookId, attempt: nat, parent: Option<nat>, allowRetry: bool)

  /** A row a retry pass has selected and cleared but not yet sent again. */
  datatype Claim = Claim(id: nat, hook: HookId, attempt: nat)

  datatype Outcome = Succeeded | Failed | CircuitReset

  /** History of one logged delivery: which send it was, how it ended, the delay scheduled for
      its retry, and where its outcome stands in the outcome history of its webhook. */
  datatype Entry = Entry(send: Send, from: nat, ok: bool, delay: Option<int>, at: nat)

  datatype State = State(
    db: Db,
    sends: seq<Send>,
    inflight: set<nat>,
    passes: map<nat, seq<Claim>>,
    claimed: set<nat>,
    log: seq<Entry>,
    outcomes: map<HookId, seq<Outcome>>)

  /******* Backoff *******/

  function BaseDelay(attempt: nat): (b: int)
  {
    BACKOFF_SECONDS[if attempt < |BACKOFF_SECONDS| then attempt else |BACKOFF_SECONDS| - 1]
  }

  /** `random` stands for Math.random(). */
  function NextRetryDelay(attempt: nat, random: real): (delay: int)
    requires 0.0 <= random < 1.0
    ensures 4 * BaseDelay(attempt) <= 5 * delay <= 6 * BaseDelay(attempt)
  {
    var base := BaseDelay(attempt) as real;
    Round(base + base * 0.2 * (2.0 * random - 1.0))
  }

  /******* The logging segment of deliverWebhook *******/

  function RowsOf(db: Db, h: HookId): set<nat>
  {
    set r | r in db.deliveries && db.deliveries[r].hook == h
  }

  /** `keep` is a result the pruning statement may compute for `h`: the newest 200 rows, ties broken either way. */
  ghost predicate Prunable(db: Db, h: HookId, keep: set<nat>)
  {
    && keep <= RowsOf(db, h)
    && |keep| == (if |RowsOf(db, h)| <= KEEP_PER_HOOK then |RowsOf(db, h)| else KEEP_PER_HOOK)
    && forall gone, kept | gone in RowsOf(db, h) - keep && kept in keep ::
         db.deliveries[gone].createdAt <= db.deliveries[kept].createdAt
  }

  function Prune(db: Db, h: HookId, keep: set<nat>): Db
  {
    db.(deliveries := map r | r in db.deliveries && (db.deliveries[r].hook != h || r in keep) :: db.deliveries[r])
  }

  /** Whether this landing schedules a retry. */
  predicate Schedules(maxRetries: int, send: Send, ok: bool)
  {
    send.allowRetry && !ok && send.attempt < maxRetries - 1
  }

  function HookAfter(maxRetries: int, hook: Hook, send: Send, ok: bool): Hook
  {
    if !send.allowRetry then hook
    else if ok then hook.(failures := 0)
    else
      var failures := hook.failures + 1;
      if send.attempt >= maxRetries - 1 && failures >= maxRetries then Hook(false, failures)
      else hook.(failures := failures)
  }

  /** Insert the delivery row, update the webhook row, schedule the retry (everything before the pruning). */
  function Logged(maxRetries: int, db: Db, send: Send, ok: bool, now: int, random: real): Db
    requires 0.0 <= random < 1.0
    requires send.hook in db.hooks
  {
    var retryAt := if Schedules(maxRetries, send, ok) then Some(now + NextRetryDelay(send.attempt, random)) else None;
    Db(
      db.hooks[send.hook := HookAfter(maxRetries, db.hooks[send.hook], send, ok)],
      db.deliveries[db.nextId := Delivery(send.hook, send.attempt, send.parent, retryAt, now)],
      db.nextId + 1)
  }

  /******* The select-and-clear segment of processWebhookRetries *******/

  predicate Due(db: Db, r: nat, now: int)
  {
    && r in db.deliveries
    && db.deliveries[r].nextRetryAt.Some?
    && db.deliveries[r].nextRetryAt.value <= now
    && db.deliveries[r].hook in db.hooks
    && db.hooks[db.deliveries[r].hook].enabled
  }

  /** `chosen` is a result the selecting statement may compute: due rows, at most 50, all of them if fewer. */
  ghost predicate Selectable(db: Db, now: int, chosen: seq<nat>)
  {
    && |chosen| <= RETRY_BATCH
    && (forall i, j | 0 <= i < j < |chosen| :: chosen[i] != chosen[j])
    && (forall r | r in chosen :: Due(db, r, now))
    && (|chosen| < RETRY_BATCH ==> forall r | r in db.deliveries && Due(db, r, now) :: r in chosen)
  }

  function Cleared(db: Db, chosen: seq<nat>): Db
  {
    db.(deliveries := map r | r in db.deliveries ::
      if r in chosen then db.deliveries[r].(nextRetryAt := None) else db.deliveries[r])
  }

  function Claims(db: Db, chosen: seq<nat>): (claims: seq<Claim>)
    requires forall r | r in chosen :: r in db.deliveries
    ensures |claims| == |chosen|
    ensures forall k | 0 <= k < |chosen| ::
      claims[k] == Claim(chosen[k], db.deliveries[chosen[k]].hook, db.deliveries[chosen[k]].attempt)
  {
    seq(|chosen|, k requires 0 <= k < |chosen| =>
      Claim(chosen[k], db.deliveries[chosen[k]].hook, db.deliveries[chosen[k]].attempt))
  }

  /******* Steps *******/

  datatype Step =
    | CreateHook(hook: HookId)
    | DeleteHook(hook: HookId)
    | SetEnabled(hook: HookId, enabled: bool)
    | ResetCircuit(hook: HookId)
    | Fire(hook: HookId)
    | FireManually(hook: HookId, retryOf: Option<nat>)
    | BeginPass(pass: nat, now: int, chosen: seq<nat>)
    | PassSends(pass: nat)
    | Land(send: nat, ok: bool, now: int, random: real, keep: set<nat>)

  ghost predicate Enabled(maxRetries: int, s: State, step: Step)
  {
    match step
    case CreateHook(h) => h !in s.outcomes
    case DeleteHook(h) => h in s.db.hooks
    case SetEnabled(h, _) => h in s.db.hooks
    case ResetCircuit(h) => h in s.db.hooks
    case Fire(h) => h in s.db.hooks && s.db.hooks[h].enabled
    case FireManually(h, retryOf) =>
      h in s.db.hooks && (retryOf.Some? ==> retryOf.value in RowsOf(s.db, h))
    case BeginPass(p, now, chosen) => p !in s.passes && Selectable(s.db, now, chosen)
    case PassSends(p) => p in s.passes && s.passes[p] != []
    case Land(i, ok, now, random, keep) =>
      && i in s.inflight && i < |s.sends|
      && 0.0 <= random < 1.0
      && (s.sends[i].hook in s.db.hooks ==>
            Prunable(Logged(maxRetries, s.db, s.sends[i], ok, now, random), s.sends[i].hook, keep))
  }

  function Sent(s: State, send: Send): State
  {
    s.(sends := s.sends + [send], inflight := s.inflight + {|s.sends|})
  }

  /** A send comes back.  The insert for a webhook deleted in the meantime violates its foreign key and nothing is
      written. */
  function Landed(maxRetries: int, s: State, i: nat, ok: bool, now: int, random: real, keep: set<nat>): State
    requires i < |s.sends| && 0.0 <= random < 1.0
  {
    var send := s.sends[i];
    var s1 := s.(inflight := s.inflight - {i});
    if send.hook !in s.db.hooks then s1
    else
      var h := send.hook;
      var past := if h in s.outcomes then s.outcomes[h] else [];
      var delay := if Schedules(maxRetries, send, ok) then Some(NextRetryDelay(send.attempt, random)) else None;
      s1.(db := Prune(Logged(maxRetries, s.db, send, ok, now, random), h, keep),
          log := s.log + [Entry(send, i, ok, delay, |past|)],
          outcomes := if send.allowRetry then s.outcomes[h := past + [if ok then Succeeded else Failed]]
            else s.outcomes)
  }

  ghost function Apply(maxRetries: int, s: State, step: Step): State
    requires Enabled(maxRetries, s, step)
  {
    match step
    case CreateHook(h) =>
      s.(db := s.db.(hooks := s.db.hooks[h := Hook(true, 0)]), outcomes := s.outcomes[h := []])
    case DeleteHook(h) =>
      s.(db := s.db.(hooks := s.db.hooks - {h}, deliveries := s.db.deliveries - RowsOf(s.db, h)))
    case SetEnabled(h, b) =>
      s.(db := s.db.(hooks := s.db.hooks[h := s.db.hooks[h].(enabled := b)]))
    case ResetCircuit(h) =>
      s.(db := s.db.(hooks := s.db.hooks[h := Hook(true, 0)]),
         outcomes := s.outcomes[h := (if h in s.outcomes then s.outcomes[h] else []) + [CircuitReset]])
    case Fire(h) => Sent(s, Send(h, 0, None, true))
    case FireManually(h, retryOf) =>
      Sent(s, Send(h, if retryOf.Some? then s.db.deliveries[retryOf.value].attempt + 1 else 0, retryOf, false))
    case BeginPass(p, now, chosen) =>
      s.(db := Cleared(s.db, chosen), passes := s.passes[p := Claims(s.db, chosen)],
         claimed := s.claimed + set r | r in chosen)
    case PassSends(p) =>
      var c := s.passes[p][0];
      Sent(s.(passes := s.passes[p := s.passes[p][1..]]), Send(c.hook, c.attempt + 1, Some(c.id), true))
    case Land(i, ok, now, random, keep) => Landed(maxRetries, s, i, ok, now, random, keep)
  }

  const EMPTY: State := State(Db(map[], map[], 0), [], {}, map[], {}, [], map[])

  /** `steps` can be taken one after the other from `s`. */
  ghost predicate IsRun(maxRetries: int, s: State, steps: seq<Step>)
    decreases |steps|
  {
    steps == [] ||
    (Enabled(maxRetries, s, steps[0]) && IsRun(maxRetries, Apply(maxRetries, s, steps[0]), steps[1..]))
  }

  ghost function After(maxRetries: int, s: State, steps: seq<Step>): State
    requires IsRun(maxRetries, s, steps)
    decreases |steps|
  {
    if steps == [] then s else After(maxRetries, Apply(maxRetries, s, steps[0]), steps[1..])
  }

  /******* Invariant *******/

  /** Length of the failing suffix. */
  function TrailingFailures(outcomes: seq<Outcome>): nat
  {
    if outcomes == [] || outcomes[|outcomes| - 1] != Failed then 0
    else 1 + TrailingFailures(outcomes[..|outcomes| - 1])
  }

  ghost predicate Retryable(maxRetries: int, e: Entry)
  {
    Schedules(maxRetries, e.send, e.ok) && e.delay.Some?
  }

  /** Every row mirrors its log entry, and a pending row has not been claimed before. */
  ghost predicate RowsInv(maxRetries: int, s: State)
  {
    && s.db.nextId == |s.log|
    && (forall r | r in s.db.deliveries ::
          && r < |s.log|
          && s.db.deliveries[r].hook == s.log[r].send.hook
          && s.db.deliveries[r].attempt == s.log[r].send.attempt)
    && (forall r | r in s.db.deliveries && s.db.deliveries[r].nextRetryAt.Some? ::
          Retryable(maxRetries, s.log[r]) && r !in s.claimed)
    && (forall r | r in s.claimed :: r < |s.log|)
  }

  ghost predicate WellSent(maxRetries: int, s: State, send: Send)
  {
    match send.parent
    case None => send.attempt == 0
    case Some(r) =>
      && r < |s.log|
      && s.log[r].send.hook == send.hook
      && send.attempt == s.log[r].send.attempt + 1
      && (send.allowRetry ==> r in s.claimed && Retryable(maxRetries, s.log[r]))
  }

  predicate IsRetryOf(send: Send, r: nat)
  {
    send.allowRetry && send.parent == Some(r)
  }

  ghost predicate SendsInv(maxRetries: int, s: State)
  {
    && (forall i | 0 <= i < |s.sends| :: WellSent(maxRetries, s, s.sends[i]))
    && (forall i, j, r | 0 <= i < j < |s.sends| && IsRetryOf(s.sends[i], r) :: !IsRetryOf(s.sends[j], r))
    && (forall i | i in s.inflight :: i < |s.sends|)
  }

  ghost predicate ClaimsInv(maxRetries: int, s: State)
  {
    && (forall p, k | p in s.passes && 0 <= k < |s.passes[p]| ::
          var c := s.passes[p][k];
          && c.id in s.claimed && c.id < |s.log|
          && Retryable(maxRetries, s.log[c.id])
          && c.hook == s.log[c.id].send.hook && c.attempt == s.log[c.id].send.attempt)
    && (forall p, k, i | p in s.passes && 0 <= k < |s.passes[p]| && 0 <= i < |s.sends| ::
          !IsRetryOf(s.sends[i], s.passes[p][k].id))
    && (forall p, q, k, l | p in s.passes && q in s.passes && 0 <= k < |s.passes[p]| && 0 <= l < |s.passes[q]|
          && s.passes[p][k].id == s.passes[q][l].id :: p == q && k == l)
  }

  ghost predicate LogInv(maxRetries: int, s: State)
  {
    && (forall id | 0 <= id < |s.log| ::
          && s.log[id].from < |s.sends| && s.log[id].from !in s.inflight
          && s.log[id].send == s.sends[s.log[id].from]
          && (s.log[id].send.parent.Some? ==> s.log[id].send.parent.value < id)
          && s.log[id].delay.Some? == Schedules(maxRetries, s.log[id].send, s.log[id].ok)
          && (s.log[id].delay.Some? ==>
                4 * BaseDelay(s.log[id].send.attempt) <= 5 * s.log[id].delay.value
                  <= 6 * BaseDelay(s.log[id].send.attempt)))
    && (forall a, b | 0 <= a < b < |s.log| :: s.log[a].from != s.log[b].from)
  }

  ghost predicate OutcomesInv(s: State)
  {
    && (forall h | h in s.db.hooks :: h in s.outcomes && s.db.hooks[h].failures == TrailingFailures(s.outcomes[h]))
    && (forall id | 0 <= id < |s.log| && s.log[id].send.allowRetry ::
          && s.log[id].send.hook in s.outcomes
          && s.log[id].at < |s.outcomes[s.log[id].send.hook]|
          && s.outcomes[s.log[id].send.hook][s.log[id].at] == if s.log[id].ok then Succeeded else Failed)
    && (forall a, b | 0 <= a < b < |s.log| && s.log[a].send.allowRetry && s.log[b].send.allowRetry
          && s.log[a].send.hook == s.log[b].send.hook :: s.log[a].at < s.log[b].at)
  }

  ghost predicate CapInv(s: State)
  {
    forall h :: |RowsOf(s.db, h)| <= KEEP_PER_HOOK
  }

  ghost predicate Inv(maxRetries: int, s: State)
  {
    && RowsInv(maxRetries, s)
    && SendsInv(maxRetries, s)
    && ClaimsInv(maxRetries, s)
    && LogInv(maxRetries, s)
    && OutcomesInv(s)
    && CapInv(s)
  }

  /******* Preservation *******/

  lemma CapAfterPrune(db: Db, h: HookId, keep: set<nat>)
    requires Prunable(db, h, keep)
    ensures RowsOf(Prune(db, h, keep), h) == keep
    ensures forall g | g != h :: RowsOf(Prune(db, h, keep), g) == RowsOf(db, g)
  {
  }

  lemma CapKept(s: State, db': Db)
    requires CapInv(s)
    requires forall h :: RowsOf(db', h) <= RowsOf(s.db, h)
    ensures forall h :: |RowsOf(db', h)| <= KEEP_PER_HOOK
  {
    forall h ensures |RowsOf(db', h)| <= KEEP_PER_HOOK {
      SubsetSize(RowsOf(db', h), RowsOf(s.db, h));
    }
  }

  lemma SubsetSize(a: set<nat>, b: set<nat>)
    requires a <= b
    ensures |a| <= |b|
  {
    assert b == a + (b - a);
  }

  lemma LandKeepsRows(maxRetries: int, s: State, step: Step)
    requires Inv(maxRetries, s) && step.Land? && Enabled(maxRetries, s, step)
    ensures RowsInv(maxRetries, Apply(maxRetries, s, step))
  {
  }

  lemma LandKeepsSends(maxRetries: int, s: State, step: Step)
    requires Inv(maxRetries, s) && step.Land? && Enabled(maxRetries, s, step)
    ensures SendsInv(maxRetries, Apply(maxRetries, s, step))
    ensures ClaimsInv(maxRetries, Apply(maxRetries, s, step))
  {
  }

  lemma LandKeepsLog(maxRetries: int, s: State, step: Step)
    requires Inv(maxRetries, s) && step.Land? && Enabled(maxRetries, s, step)
    ensures LogInv(maxRetries, Apply(maxRetries, s, step))
  {
  }

  lemma LandKeepsCounters(maxRetries: int, s: State, step: Step)
    requires Inv(maxRetries, s) && step.Land? && Enabled(maxRetries, s, step)
    ensures forall h | h in Apply(maxRetries, s, step).db.hooks ::
      var s' := Apply(maxRetries, s, step);
      h in s'.outcomes && s'.db.hooks[h].failures == TrailingFailures(s'.outcomes[h])
  {
    var send := s.sends[step.send];
    if send.hook in s.db.hooks && send.allowRetry {
      var past := s.outcomes[send.hook];
      var now := past + [if step.ok then Succeeded else Failed];
      assert now[..|past|] == past;
    }
  }

  lemma LandKeepsPositions(maxRetries: int, s: State, step: Step)
    requires OutcomesInv(s) && step.Land? && Enabled(maxRetries, s, step)
    ensures var s' := Apply(maxRetries, s, step);
      forall id | 0 <= id < |s'.log| && s'.log[id].send.allowRetry ::
        && s'.log[id].send.hook in s'.outcomes
        && s'.log[id].at < |s'.outcomes[s'.log[id].send.hook]|
        && s'.outcomes[s'.log[id].send.hook][s'.log[id].at] == if s'.log[id].ok then Succeeded else Failed
  {
    var s' := Apply(maxRetries, s, step);
    assert forall h | h in s.outcomes :: h in s'.outcomes && s.outcomes[h] <= s'.outcomes[h];
    assert forall id | 0 <= id < |s.log| :: s'.log[id] == s.log[id];
  }

  lemma LandKeepsOutcomes(maxRetries: int, s: State, step: Step)
    requires Inv(maxRetries, s) && step.Land? && Enabled(maxRetries, s, step)
    ensures OutcomesInv(Apply(maxRetries, s, step))
  {
    LandKeepsCounters(maxRetries, s, step);
    LandKeepsPositions(maxRetries, s, step);
    var s' := Apply(maxRetries, s, step);
    forall a, b | 0 <= a < b < |s'.log| && s'.log[a].send.allowRetry && s'.log[b].send.allowRetry
      && s'.log[a].send.hook == s'.log[b].send.hook
      ensures s'.log[a].at < s'.log[b].at
    {
      assert s'.log[a] == s.log[a];
      if b < |s.log| {
        assert s'.log[b] == s.log[b];
      }
    }
  }

  lemma LandKeepsCap(maxRetries: int, s: State, step: Step)
    requires Inv(maxRetries, s) && step.Land? && Enabled(maxRetries, s, step)
    ensures CapInv(Apply(maxRetries, s, step))
  {
    var send := s.sends[step.send];
    if send.hook in s.db.hooks {
      var db1 := Logged(maxRetries, s.db, send, step.ok, step.now, step.random);
      CapAfterPrune(db1, send.hook, step.keep);
      forall g | g != send.hook ensures |RowsOf(Apply(maxRetries, s, step).db, g)| <= KEEP_PER_HOOK {
        SubsetSize(RowsOf(Apply(maxRetries, s, step).db, g), RowsOf(s.db, g));
      }
    }
  }

  lemma BeginPassKeepsClaims(maxRetries: int, s: State, step: Step)
    requires Inv(maxRetries, s) && step.BeginPass? && Enabled(maxRetries, s, step)
    ensures ClaimsInv(maxRetries, Apply(maxRetries, s, step))
  {
    var s' := Apply(maxRetries, s, step);
    var mine := s'.passes[step.pass];
    forall k | 0 <= k < |mine|
      ensures mine[k].id == step.chosen[k] && Due(s.db, mine[k].id, step.now)
      ensures mine[k].id in s'.claimed && mine[k].id !in s.claimed && mine[k].id < |s.log|
      ensures Retryable(maxRetries, s.log[mine[k].id])
      ensures mine[k].hook == s.log[mine[k].id].send.hook && mine[k].attempt == s.log[mine[k].id].send.attempt
    {
      assert step.chosen[k] in step.chosen;
      assert Due(s.db, step.chosen[k], step.now);
    }
    forall k, i | 0 <= k < |mine| && 0 <= i < |s.sends|
      ensures !IsRetryOf(s.sends[i], mine[k].id)
    {
      assert WellSent(maxRetries, s, s.sends[i]);
    }
  }

  lemma BeginPassKeepsInv(maxRetries: int, s: State, step: Step)
    requires Inv(maxRetries, s) && step.BeginPass? && Enabled(maxRetries, s, step)
    ensures Inv(maxRetries, Apply(maxRetries, s, step))
  {
    CapKept(s, Apply(maxRetries, s, step).db);
    BeginPassKeepsClaims(maxRetries, s, step);
  }

  /** A send that is not an automatic retry, for a webhook whose row it may retry by hand. */
  lemma FreshSendKeepsSends(maxRetries: int, s: State, send: Send)
    requires Inv(maxRetries, s) && WellSent(maxRetries, s, send)
    requires forall r :: !IsRetryOf(send, r)
    ensures SendsInv(maxRetries, Sent(s, send)) && ClaimsInv(maxRetries, Sent(s, send))
  {
  }

  lemma SendKeepsInv(maxRetries: int, s: State, step: Step)
    requires Inv(maxRetries, s) && (step.Fire? || step.FireManually?) && Enabled(maxRetries, s, step)
    ensures Inv(maxRetries, Apply(maxRetries, s, step))
  {
    var s' := Apply(maxRetries, s, step);
    FreshSendKeepsSends(maxRetries, s, s'.sends[|s.sends|]);
  }

  lemma PassSendsKeepsSends(maxRetries: int, s: State, step: Step)
    requires Inv(maxRetries, s) && step.PassSends? && Enabled(maxRetries, s, step)
    ensures SendsInv(maxRetries, Apply(maxRetries, s, step))
  {
    var s' := Apply(maxRetries, s, step);
    var c := s.passes[step.pass][0];
    forall i | 0 <= i < |s.sends| ensures !IsRetryOf(s.sends[i], c.id) {
    }
    assert WellSent(maxRetries, s', s'.sends[|s.sends|]);
  }

  /** Where a claim that is left stood before. */
  lemma ClaimsLeft(maxRetries: int, s: State, step: Step, p: nat, k: nat)
    requires ClaimsInv(maxRetries, s) && step.PassSends? && Enabled(maxRetries, s, step)
    requires p in Apply(maxRetries, s, step).passes && k < |Apply(maxRetries, s, step).passes[p]|
    ensures var k0 := if p == step.pass then k + 1 else k;
      && p in s.passes && k0 < |s.passes[p]| && Apply(maxRetries, s, step).passes[p][k] == s.passes[p][k0]
      && s.passes[p][k0].id != s.passes[step.pass][0].id
  {
  }

  lemma ClaimsStayUnique(maxRetries: int, s: State, step: Step, p: nat, q: nat, k: nat, l: nat)
    requires ClaimsInv(maxRetries, s) && step.PassSends? && Enabled(maxRetries, s, step)
    requires p in Apply(maxRetries, s, step).passes && k < |Apply(maxRetries, s, step).passes[p]|
    requires q in Apply(maxRetries, s, step).passes && l < |Apply(maxRetries, s, step).passes[q]|
    requires Apply(maxRetries, s, step).passes[p][k].id == Apply(maxRetries, s, step).passes[q][l].id
    ensures p == q && k == l
  {
    ClaimsLeft(maxRetries, s, step, p, k);
    ClaimsLeft(maxRetries, s, step, q, l);
  }

  lemma PassSendsKeepsClaims(maxRetries: int, s: State, step: Step)
    requires Inv(maxRetries, s) && step.PassSends? && Enabled(maxRetries, s, step)
    ensures ClaimsInv(maxRetries, Apply(maxRetries, s, step))
  {
    var s' := Apply(maxRetries, s, step);
    forall p, k | p in s'.passes && 0 <= k < |s'.passes[p]|
      ensures var k0 := if p == step.pass then k + 1 else k;
        p in s.passes && k0 < |s.passes[p]| && s'.passes[p][k] == s.passes[p][k0]
        && s'.passes[p][k].id != s.passes[step.pass][0].id
    {
      ClaimsLeft(maxRetries, s, step, p, k);
    }
    forall p, q, k, l | p in s'.passes && q in s'.passes && 0 <= k < |s'.passes[p]| && 0 <= l < |s'.passes[q]|
      && s'.passes[p][k].id == s'.passes[q][l].id
      ensures p == q && k == l
    {
      ClaimsStayUnique(maxRetries, s, step, p, q, k, l);
    }
  }

  lemma PassSendsKeepsInv(maxRetries: int, s: State, step: Step)
    requires Inv(maxRetries, s) && step.PassSends? && Enabled(maxRetries, s, step)
    ensures Inv(maxRetries, Apply(maxRetries, s, step))
  {
    CapKept(s, Apply(maxRetries, s, step).db);
    PassSendsKeepsSends(maxRetries, s, step);
    PassSendsKeepsClaims(maxRetries, s, step);
  }

  lemma DeleteHookKeepsInv(maxRetries: int, s: State, step: Step)
    requires Inv(maxRetries, s) && step.DeleteHook? && Enabled(maxRetries, s, step)
    ensures Inv(maxRetries, Apply(maxRetries, s, step))
  {
    CapKept(s, Apply(maxRetries, s, step).db);
  }

  /** Creating, switching and resetting touch only the webhook row and its outcome history. */
  lemma AdminKeepsOutcomes(maxRetries: int, s: State, step: Step)
    requires OutcomesInv(s) && Enabled(maxRetries, s, step)
    requires step.CreateHook? || step.SetEnabled? || step.ResetCircuit?
    ensures OutcomesInv(Apply(maxRetries, s, step))
  {
    assert forall h | h in s.outcomes && (step.CreateHook? ==> h != step.hook) ::
      s.outcomes[h] <= Apply(maxRetries, s, step).outcomes[h];
  }

  lemma AdminKeepsInv(maxRetries: int, s: State, step: Step)
    requires Inv(maxRetries, s) && Enabled(maxRetries, s, step)
    requires step.CreateHook? || step.SetEnabled? || step.ResetCircuit?
    ensures Inv(maxRetries, Apply(maxRetries, s, step))
  {
    AdminKeepsOutcomes(maxRetries, s, step);
    assert forall h :: RowsOf(Apply(maxRetries, s, step).db, h) == RowsOf(s.db, h);
  }

  lemma StepKeepsInv(maxRetries: int, s: State, step: Step)
    requires Inv(maxRetries, s) && Enabled(maxRetries, s, step)
    ensures Inv(maxRetries, Apply(maxRetries, s, step))
  {
    match step
    case BeginPass(_, _, _) => BeginPassKeepsInv(maxRetries, s, step);
    case PassSends(_) => PassSendsKeepsInv(maxRetries, s, step);
    case Fire(_) => SendKeepsInv(maxRetries, s, step);
    case FireManually(_, _) => SendKeepsInv(maxRetries, s, step);
    case Land(_, _, _, _, _) =>
      LandKeepsRows(maxRetries, s, step);
      LandKeepsSends(maxRetries, s, step);
      LandKeepsLog(maxRetries, s, step);
      LandKeepsOutcomes(maxRetries, s, step);
      LandKeepsCap(maxRetries, s, step);
    case DeleteHook(_) => DeleteHookKeepsInv(maxRetries, s, step);
    case _ => AdminKeepsInv(maxRetries, s, step);
  }

  lemma {:induction false} RunKeepsInv(maxRetries: int, s: State, steps: seq<Step>)
    requires Inv(maxRetries, s) && IsRun(maxRetries, s, steps)
    ensures Inv(maxRetries, After(maxRetries, s, steps))
    decreases |steps|
  {
    if steps != [] {
      StepKeepsInv(maxRetries, s, steps[0]);
      RunKeepsInv(maxRetries, Apply(maxRetries, s, steps[0]), steps[1..]);
    }
  }

  /** A state of some run from the empty database. */
  ghost predicate Reachable(maxRetries: int, s: State)
  {
    exists steps :: IsRun(maxRetries, EMPTY, steps) && After(maxRetries, EMPTY, steps) == s
  }

  lemma ReachableInv(maxRetries: int, s: State)
    requires Reachable(maxRetries, s)
    ensures Inv(maxRetries, s)
  {
    var steps :| IsRun(maxRetries, EMPTY, steps) && After(maxRetries, EMPTY, steps) == s;
    RunKeepsInv(maxRetries, EMPTY, steps);
  }

  /******* At most one retry per delivery *******/

  /** In every run a delivery row is sent again automatically at most once, however passes overlap;
      the retry goes to the same webhook with the attempt number one higher, only after a failure. */
  lemma RetriedAtMostOnce(maxRetries: int, s: State)
    requires Reachable(maxRetries, s)
    ensures forall i, j, r: nat | 0 <= i < |s.sends| && 0 <= j < |s.sends| && IsRetryOf(s.sends[i], r)
      && IsRetryOf(s.sends[j], r) ::
      i == j
    ensures forall a, b, r: nat | 0 <= a < |s.log| && 0 <= b < |s.log| && IsRetryOf(s.log[a].send, r)
      && IsRetryOf(s.log[b].send, r) ::
      a == b
    ensures forall i, r: nat | 0 <= i < |s.sends| && IsRetryOf(s.sends[i], r) ::
      && r < |s.log| && s.log[r].send.allowRetry && !s.log[r].ok
      && s.sends[i].hook == s.log[r].send.hook
      && s.sends[i].attempt == s.log[r].send.attempt + 1 < (if maxRetries < 1 then 1 else maxRetries)
  {
    ReachableInv(maxRetries, s);
    forall i, r: nat | 0 <= i < |s.sends| && IsRetryOf(s.sends[i], r)
      ensures WellSent(maxRetries, s, s.sends[i])
    {
    }
    forall a, b, r: nat | 0 <= a < |s.log| && 0 <= b < |s.log| && IsRetryOf(s.log[a].send, r)
      && IsRetryOf(s.log[b].send, r)
      ensures a == b
    {
      assert IsRetryOf(s.sends[s.log[a].from], r) && IsRetryOf(s.sends[s.log[b].from], r);
    }
  }

  /******* Chains of retries *******/

  /** The deliveries leading to `id` through parent links, oldest first. */
  function Chain(log: seq<Entry>, id: nat): (c: seq<nat>)
    requires id < |log|
    ensures c != [] && c[|c| - 1] == id
    ensures forall k | 0 <= k < |c| :: c[k] < |log|
    decreases id
  {
    match log[id].send.parent
    case None => [id]
    case Some(p) => if p < id then Chain(log, p) + [id] else [id]
  }

  /** What holds of a delivery chain that ends in an automatic delivery `id`. */
  ghost predicate ProperChain(s: State, id: nat)
    requires id < |s.log|
  {
    var c := Chain(s.log, id);
    && |c| == s.log[id].send.attempt + 1
    && s.log[c[0]].send.parent == None
    && (forall k | 0 <= k < |c| - 1 :: s.log[c[k + 1]].send.parent == Some(c[k]))
    && (forall k | 0 <= k < |c| ::
          s.log[c[k]].send.allowRetry && s.log[c[k]].send.hook == s.log[id].send.hook && s.log[c[k]].send.attempt == k)
    && (forall k | 0 <= k < |c| - 1 :: !s.log[c[k]].ok && s.log[c[k]].delay.Some?)
    && (forall k | 0 <= k < |c| - 1 :: c[k] < c[k + 1])
  }

  lemma {:induction false} ChainIsProper(maxRetries: int, s: State, id: nat)
    requires Inv(maxRetries, s) && id < |s.log| && s.log[id].send.allowRetry
    ensures ProperChain(s, id)
    decreases id
  {
    var send := s.log[id].send;
    assert WellSent(maxRetries, s, send) by {
      assert send == s.sends[s.log[id].from];
    }
    if send.parent.Some? {
      var p := send.parent.value;
      ChainIsProper(maxRetries, s, p);
      var c, c' := Chain(s.log, p), Chain(s.log, id);
      assert c' == c + [id];
    }
  }

  /** Every chain of automatic deliveries starts at attempt 0 and holds at most MAX_RETRIES deliveries
      (one, should MAX_RETRIES be configured below 1). */
  lemma ChainIsBounded(maxRetries: int, s: State, id: nat)
    requires Reachable(maxRetries, s)
    requires id < |s.log| && s.log[id].send.allowRetry
    ensures ProperChain(s, id)
    ensures |Chain(s.log, id)| <= if maxRetries < 1 then 1 else maxRetries
  {
    ReachableInv(maxRetries, s);
    ChainIsProper(maxRetries, s, id);
    assert WellSent(maxRetries, s, s.sends[s.log[id].from]);
  }

  /******* Delays of a chain *******/

  function BaseSum(attempts: nat): int
  {
    if attempts == 0 then 0 else BaseSum(attempts - 1) + BaseDelay(attempts - 1)
  }

  /** Sum of the delays scheduled by the first `n` deliveries of `chain`. */
  function DelaySum(log: seq<Entry>, chain: seq<nat>, n: nat): int
    requires n <= |chain| && forall k | 0 <= k < |chain| :: chain[k] < |log|
  {
    if n == 0 then 0
    else DelaySum(log, chain, n - 1) + (if log[chain[n - 1]].delay.Some? then log[chain[n - 1]].delay.value else 0)
  }

  lemma {:induction false} DelaySumBounds(maxRetries: int, s: State, id: nat, n: nat)
    requires Inv(maxRetries, s) && id < |s.log| && s.log[id].send.allowRetry
    requires n < |Chain(s.log, id)|
    ensures 4 * BaseSum(n) <= 5 * DelaySum(s.log, Chain(s.log, id), n) <= 6 * BaseSum(n)
    decreases n
  {
    ChainIsProper(maxRetries, s, id);
    if n > 0 {
      DelaySumBounds(maxRetries, s, id, n - 1);
    }
  }

  /** The delays scheduled along a chain sum to between 4/5 and 6/5 of their base delays, for every MAX_RETRIES. */
  lemma ChainDelays(maxRetries: int, s: State, id: nat)
    requires Reachable(maxRetries, s)
    requires id < |s.log| && s.log[id].send.allowRetry
    ensures var c := Chain(s.log, id);
      4 * BaseSum(|c| - 1) <= 5 * DelaySum(s.log, c, |c| - 1) <= 6 * BaseSum(|c| - 1)
  {
    var n := |Chain(s.log, id)| - 1;
    assert 4 * BaseSum(n) <= 5 * DelaySum(s.log, Chain(s.log, id), n) <= 6 * BaseSum(n) by {
      ReachableInv(maxRetries, s);
      DelaySumBounds(maxRetries, s, id, n);
    }
  }

  /******* Circuit breaker *******/

  lemma {:induction false} TrailingIsSuffix(outcomes: seq<Outcome>)
    ensures TrailingFailures(outcomes) <= |outcomes|
    ensures forall k | |outcomes| - TrailingFailures(outcomes) <= k < |outcomes| :: outcomes[k] == Failed
    ensures TrailingFailures(outcomes) < |outcomes| ==> outcomes[|outcomes| - TrailingFailures(outcomes) - 1] != Failed
  {
    if outcomes != [] && outcomes[|outcomes| - 1] == Failed {
      TrailingIsSuffix(outcomes[..|outcomes| - 1]);
    }
  }

  lemma {:induction false} SuffixIsTrailing(outcomes: seq<Outcome>, n: nat)
    requires n <= |outcomes|
    requires forall k | |outcomes| - n <= k < |outcomes| :: outcomes[k] == Failed
    ensures TrailingFailures(outcomes) >= n
  {
    if n > 0 {
      SuffixIsTrailing(outcomes[..|outcomes| - 1], n - 1);
    }
  }

  /** In every reachable state `consecutive_failures` counts exactly the failures of that webhook's retry-enabled
      deliveries since its last success or circuit reset. */
  lemma CounterIsFailingSuffix(maxRetries: int, s: State, h: HookId)
    requires Reachable(maxRetries, s) && h in s.db.hooks
    ensures h in s.outcomes
    ensures var o, n := s.outcomes[h], s.db.hooks[h].failures;
      && n <= |o|
      && (forall k | |o| - n <= k < |o| :: o[k] == Failed)
      && (n < |o| ==> o[|o| - n - 1] != Failed)
  {
    ReachableInv(maxRetries, s);
    TrailingIsSuffix(s.outcomes[h]);
  }

  /** The only step that disables a webhook on its own is the landing of a failed last attempt,
      and then the webhook's last MAX_RETRIES outcomes are all failures. */
  lemma BreakerNeedsFailuresInARow(maxRetries: int, s: State, step: Step, h: HookId)
    requires Reachable(maxRetries, s) && Enabled(maxRetries, s, step)
    requires h in s.db.hooks && s.db.hooks[h].enabled
    requires var s' := Apply(maxRetries, s, step); h in s'.db.hooks && !s'.db.hooks[h].enabled
    requires !step.SetEnabled?
    ensures step.Land? && !step.ok && s.sends[step.send].hook == h && s.sends[step.send].attempt >= maxRetries - 1
    ensures var o := Apply(maxRetries, s, step).outcomes[h];
      maxRetries <= |o| && forall k | |o| - maxRetries <= k < |o| && 0 <= k :: o[k] == Failed
  {
    ReachableInv(maxRetries, s);
    LandKeepsCounters(maxRetries, s, step);
    TrailingIsSuffix(Apply(maxRetries, s, step).outcomes[h]);
  }

  /** Where in the outcome history of its webhook the chain of a send began. */
  function ChainBegan(s: State, send: Send): nat
    requires send.hook in s.outcomes
    requires send.parent.Some? ==> send.parent.value < |s.log|
  {
    if send.parent.None? then |s.outcomes[send.hook]|
    else s.log[Chain(s.log, send.parent.value)[0]].at
  }

  lemma {:induction false} ChainPositions(maxRetries: int, s: State, id: nat, k: nat)
    requires Inv(maxRetries, s) && id < |s.log| && s.log[id].send.allowRetry
    requires k < |Chain(s.log, id)|
    ensures var c := Chain(s.log, id); s.log[c[k]].at >= s.log[c[0]].at + k
    decreases k
  {
    ChainIsProper(maxRetries, s, id);
    if k > 0 {
      ChainPositions(maxRetries, s, id, k - 1);
      var c := Chain(s.log, id);
      assert c[k - 1] < c[k - 1 + 1];
    }
  }

  /** A chain that exhausts its attempts with neither a success nor a circuit reset of its webhook since
      it began always disables the webhook. */
  lemma ExhaustedChainDisables(maxRetries: int, s: State, step: Step)
    requires Reachable(maxRetries, s) && Enabled(maxRetries, s, step)
    requires step.Land? && !step.ok
    requires var send := s.sends[step.send];
      send.allowRetry && send.attempt >= maxRetries - 1 && send.hook in s.db.hooks
    ensures var send := s.sends[step.send];
      && send.hook in s.outcomes
      && (send.parent.Some? ==> send.parent.value < |s.log|)
      && ((forall k | ChainBegan(s, send) <= k < |s.outcomes[send.hook]| :: s.outcomes[send.hook][k] == Failed)
            ==> !Apply(maxRetries, s, step).db.hooks[send.hook].enabled)
  {
    ReachableInv(maxRetries, s);
    var send := s.sends[step.send];
    assert WellSent(maxRetries, s, send);
    var o := s.outcomes[send.hook];
    if send.parent.Some? && forall k | ChainBegan(s, send) <= k < |o| :: o[k] == Failed {
      var p := send.parent.value;
      ChainIsProper(maxRetries, s, p);
      ChainPositions(maxRetries, s, p, send.attempt - 1);
      SuffixIsTrailing(o, send.attempt);
    }
  }

  /******* Pruning *******/

  lemma LoggedRows(maxRetries: int, db: Db, send: Send, ok: bool, now: int, random: real)
    requires 0.0 <= random < 1.0 && send.hook in db.hooks
    requires forall r | r in db.deliveries :: r < db.nextId
    ensures var before := Logged(maxRetries, db, send, ok, now, random);
      && RowsOf(before, send.hook) == RowsOf(db, send.hook) + {db.nextId}
      && (forall g | g != send.hook :: RowsOf(before, g) == RowsOf(db, g))
  {
  }

  /** At every await point each webhook has at most 200 rows. */
  lemma AtMost200Rows(maxRetries: int, s: State, h: HookId)
    requires Reachable(maxRetries, s)
    ensures |RowsOf(s.db, h)| <= 200
  {
    ReachableInv(maxRetries, s);
  }

  /** A landing leaves the new row and the old ones if that makes at most 200, and else exactly 200 of them, never
      dropping a row strictly newer than one it keeps; the rows of other webhooks stay. */
  lemma PruningKeepsTheNewest(maxRetries: int, s: State, step: Step)
    requires Reachable(maxRetries, s) && Enabled(maxRetries, s, step)
    requires step.Land? && s.sends[step.send].hook in s.db.hooks
    ensures var h := s.sends[step.send].hook;
      var before := Logged(maxRetries, s.db, s.sends[step.send], step.ok, step.now, step.random);
      var after := Apply(maxRetries, s, step).db;
      && RowsOf(after, h) <= RowsOf(s.db, h) + {s.db.nextId}
      && |RowsOf(after, h)| == (if |RowsOf(s.db, h)| < 200 then |RowsOf(s.db, h)| + 1 else 200)
      && (forall gone, kept | gone in RowsOf(s.db, h) + {s.db.nextId} - RowsOf(after, h) && kept in RowsOf(after, h) ::
            gone in before.deliveries && before.deliveries[gone].createdAt <= before.deliveries[kept].createdAt)
      && (forall g | g != h :: RowsOf(after, g) == RowsOf(s.db, g))
  {
    assert forall r | r in s.db.deliveries :: r < s.db.nextId by {
      ReachableInv(maxRetries, s);
    }
    var h := s.sends[step.send].hook;
    AtMost200Rows(maxRetries, s, h);
    var before := Logged(maxRetries, s.db, s.sends[step.send], step.ok, step.now, step.random);
    LoggedRows(maxRetries, s.db, s.sends[step.send], step.ok, step.now, step.random);
    assert s.db.nextId !in RowsOf(s.db, h);
    CapAfterPrune(before, h, step.keep);
    assert Apply(maxRetries, s, step).db == Prune(before, h, step.keep);
  }

  /******* The two segments as the code performs them *******/

  /** The database the segments work on. */
  class DeliveryStore {
    var hooks: map<HookId, Hook>
    var deliveries: map<nat, Delivery>
    var nextId: nat

    ghost function View(): Db
      reads this
    {
      Db(hooks, deliveries, nextId)
    }

    ghost predicate Valid()
      reads this
    {
      forall r | r in deliveries :: r < nextId
    }

    constructor ()
      ensures Valid() && View() == EMPTY.db
    {
      hooks, deliveries, nextId := map[], map[], 0;
    }

    /** The oldest row of a webhook. */
    method Oldest(rows: set<nat>) returns (oldest: nat)
      requires rows != {} && rows <= deliveries.Keys
      ensures oldest in rows
      ensures forall r | r in rows :: deliveries[oldest].createdAt <= deliveries[r].createdAt
    {
      oldest :| oldest in rows;
      var rest := rows - {oldest};
      while rest != {}
        invariant oldest in rows && rest <= rows
        invariant forall r | r in rows - rest :: deliveries[oldest].createdAt <= deliveries[r].createdAt
        decreases |rest|
      {
        var r :| r in rest;
        if deliveries[r].createdAt < deliveries[oldest].createdAt {
          oldest := r;
        }
        rest := rest - {r};
      }
    }

    /** DELETE ... WHERE id NOT IN (SELECT ... ORDER BY created_at DESC LIMIT 200). */
    method PruneDeliveries(h: HookId) returns (keep: set<nat>)
      requires Valid()
      modifies this`deliveries
      ensures Valid()
      ensures Prunable(old(View()), h, keep)
      ensures View() == Prune(old(View()), h, keep)
    {
      ghost var before := View();
      keep := set r | r in deliveries && deliveries[r].hook == h;
      ghost var all := keep;
      assert all == RowsOf(before, h);
      while |keep| > KEEP_PER_HOOK
        invariant keep <= all
        invariant |keep| == |all| || |keep| >= KEEP_PER_HOOK
        invariant |all| <= KEEP_PER_HOOK ==> keep == all
        invariant deliveries == before.deliveries
        invariant forall gone, kept | gone in all - keep && kept in keep ::
          before.deliveries[gone].createdAt <= before.deliveries[kept].createdAt
        decreases |keep|
      {
        var r := Oldest(keep);
        keep := keep - {r};
      }
      deliveries := map r | r in deliveries && (deliveries[r].hook != h || r in keep) :: deliveries[r];
    }

    /** The segment after the network call: insert, counter, retry or breaker, prune. */
    method LogDelivery(maxRetries: int, send: Send, ok: bool, now: int, random: real)
      returns (id: Option<nat>, ghost keep: set<nat>)
      requires Valid() && 0.0 <= random < 1.0
      modifies this
      ensures Valid()
      ensures send.hook !in old(hooks) ==> id == None && View() == old(View())
      ensures send.hook in old(hooks) ==>
        && id == Some(old(nextId))
        && Prunable(Logged(maxRetries, old(View()), send, ok, now, random), send.hook, keep)
        && View() == Prune(Logged(maxRetries, old(View()), send, ok, now, random), send.hook, keep)
    {
      keep := {};
      if send.hook !in hooks {
        return None, keep;
      }
      id := Some(nextId);
      deliveries := deliveries[nextId := Delivery(send.hook, send.attempt, send.parent, None, now)];
      nextId := nextId + 1;
      if send.allowRetry {
        if ok {
          hooks := hooks[send.hook := hooks[send.hook].(failures := 0)];
        } else {
          hooks := hooks[send.hook := hooks[send.hook].(failures := hooks[send.hook].failures + 1)];
          if send.attempt < maxRetries - 1 {
            var retryAt := now + NextRetryDelay(send.attempt, random);
            deliveries := deliveries[id.value := deliveries[id.value].(nextRetryAt := Some(retryAt))];
          } else if hooks[send.hook].failures >= maxRetries {
            hooks := hooks[send.hook := hooks[send.hook].(enabled := false)];
          }
        }
      }
      assert View() == Logged(maxRetries, old(View()), send, ok, now, random);
      keep := PruneDeliveries(send.hook);
    }

    /** SELECT ... WHERE next_retry_at <= now LIMIT 50. */
    method SelectDue(now: int) returns (chosen: seq<nat>)
      requires Valid()
      ensures Selectable(View(), now, chosen)
    {
      chosen := [];
      var r := 0;
      while r < nextId && |chosen| < RETRY_BATCH
        invariant r <= nextId && |chosen| <= RETRY_BATCH
        invariant forall k | 0 <= k < |chosen| :: chosen[k] < r && Due(View(), chosen[k], now)
        invariant forall i, j | 0 <= i < j < |chosen| :: chosen[i] != chosen[j]
        invariant forall c | c in deliveries && c < r && Due(View(), c, now) :: c in chosen
      {
        if r in deliveries && deliveries[r].nextRetryAt.Some? && deliveries[r].nextRetryAt.value <= now
          && deliveries[r].hook in hooks && hooks[deliveries[r].hook].enabled {
          chosen := chosen + [r];
        }
        r := r + 1;
      }
    }

    /** Select due rows and clear their `next_retry_at` at once; returns the rows to send again. */
    method ClaimDue(now: int) returns (claims: seq<Claim>, chosen: seq<nat>)
      requires Valid()
      modifies this`deliveries
      ensures Valid()
      ensures Selectable(old(View()), now, chosen)
      ensures View() == Cleared(old(View()), chosen)
      ensures claims == Claims(old(View()), chosen)
    {
      chosen := SelectDue(now);
      assert forall k | 0 <= k < |chosen| :: chosen[k] in chosen && Due(View(), chosen[k], now);
      claims := Claims(Db(hooks, deliveries, nextId), chosen);
      ghost var before := View();
      for i := 0 to |chosen|
        invariant deliveries.Keys == before.deliveries.Keys
        invariant forall r | r in deliveries ::
          deliveries[r] == if r in chosen[..i] then before.deliveries[r].(nextRetryAt := None) else before.deliveries[r]
      {
        deliveries := deliveries[chosen[i] := deliveries[chosen[i]].(nextRetryAt := None)];
      }
      assert chosen[..|chosen|] == chosen;
    }
  }
}
