/**
 The migration runner of src/lib/migrations.ts.  A migration is a transformer of the database; it runs in a transaction
 together with the insertion of its id into schema_migrations, so a process that dies inside the transaction leaves
 what was there before.
 */
module Migrations {
  import opened Options

  /** `up` gives None where it throws; a failure that does not depend on the database is an interruption instead. */
  datatype Migration<!D> = Migration(id: string, up: D -> Option<D>)

  /** The tables, and the ids in schema_migrations in the order of their insertion. */
  datatype Database<D> = Database(content: D, applied: seq<string>)

  /** INSERT OR IGNORE. */
  function Inserted(applied: seq<string>, id: string): seq<string>
  {
    if id in applied then applied else applied + [id]
  }

  function Elements(ids: seq<string>): set<string> { set id | id in ids }

  /** A run that dies before or inside the transaction of migration `stop`; it ends undisturbed if `stop` is not below
      the length of the list.  What was applied is read once, before the loop. */
  method RunMigrations<D>(list: seq<Migration<D>>, db: Database<D>, stop: nat) returns (r: Database<D>)
    ensures r == Run(list, db, stop)
  {
    var applied := Elements(db.applied);
    r := db;
    var i := 0;
    while i < |list| && i < stop
      invariant 0 <= i <= |list|
      invariant Run(list, db, stop) == RunFrom(list, applied, r, i, stop)
    {
      if list[i].id !in applied {
        var content := list[i].up(r.content);
        if content.None? {
          return;
        }
        r := Database(content.value, Inserted(r.applied, list[i].id));
      }
      i := i + 1;
    }
  }

  function RunFrom<D>(list: seq<Migration<D>>, applied: set<string>, db: Database<D>, i: nat, stop: nat): Database<D>
    requires i <= |list|
    decreases |list| - i
  {
    if i == |list| || i >= stop then db
    else if list[i].id in applied then RunFrom(list, applied, db, i + 1, stop)
    else
      var content := list[i].up(db.content);
      if content.None? then db
      else RunFrom(list, applied, Database(content.value, Inserted(db.applied, list[i].id)), i + 1, stop)
  }

  function Run<D>(list: seq<Migration<D>>, db: Database<D>, stop: nat): Database<D>
  {
    RunFrom(list, Elements(db.applied), db, 0, stop)
  }

  function FullRun<D>(list: seq<Migration<D>>, db: Database<D>): Database<D> { Run(list, db, |list|) }

  function Runs<D>(list: seq<Migration<D>>, db: Database<D>, stops: seq<nat>): Database<D>
    decreases |stops|
  {
    if stops == [] then db else Runs(list, Run(list, db, stops[0]), stops[1..])
  }

  /******* Reference: the missing migrations, one after the other *******/

  function Missing<D>(list: seq<Migration<D>>, applied: seq<string>): seq<Migration<D>>
  {
    if list == [] then []
    else if list[0].id in applied then Missing(list[1..], applied)
    else [list[0]] + Missing(list[1..], applied)
  }

  function Ids<D>(list: seq<Migration<D>>): (r: seq<string>)
    ensures |r| == |list|
  {
    if list == [] then [] else [list[0].id] + Ids(list[1..])
  }

  /** Applied until the first that throws. */
  function ApplyAll<D>(list: seq<Migration<D>>, db: Database<D>): Database<D>
  {
    if list == [] then db
    else
      var content := list[0].up(db.content);
      if content.None? then db else ApplyAll(list[1..], Database(content.value, db.applied + [list[0].id]))
  }

  /** None of them throws. */
  predicate AllSucceed<D>(list: seq<Migration<D>>, content: D)
  {
    list == [] || (list[0].up(content).Some? && AllSucceed(list[1..], list[0].up(content).value))
  }

  predicate DistinctIds<D>(list: seq<Migration<D>>) { forall i, j | 0 <= i < j < |list| :: list[i].id != list[j].id }

  /** Recording the id of a migration does not change what is missing of others. */
  lemma {:induction false} MissingOfOthers<D>(list: seq<Migration<D>>, applied: seq<string>, id: string)
    requires forall i | 0 <= i < |list| :: list[i].id != id
    ensures Missing(list, applied + [id]) == Missing(list, applied)
  {
    if list != [] { MissingOfOthers(list[1..], applied, id); }
  }

  lemma {:induction false} RunFromIsApplyAll<D>(list: seq<Migration<D>>, applied: set<string>, db: Database<D>,
      i: nat, stop: nat)
    requires DistinctIds(list) && i <= stop <= |list|
    requires forall k | i <= k < |list| :: list[k].id in applied <==> list[k].id in db.applied
    ensures RunFrom(list, applied, db, i, stop) == ApplyAll(Missing(list[i..stop], db.applied), db)
    decreases stop - i
  {
    if i < stop {
      var m, rest := list[i], list[i + 1..stop];
      assert list[i..stop] == [m] + rest;
      assert list[i..stop][1..] == rest;
      if m.id in applied {
        RunFromIsApplyAll(list, applied, db, i + 1, stop);
      } else {
        var content := m.up(db.content);
        if content.Some? {
          var next := Database(content.value, db.applied + [m.id]);
          RunFromIsApplyAll(list, applied, next, i + 1, stop);
          MissingOfOthers(rest, db.applied, m.id);
          assert Missing(list[i..stop], db.applied)[1..] == Missing(rest, db.applied);
        }
      }
    }
  }

  /** A run applies what is missing of the list up to the point where it stops. */
  lemma RunIsApplyAll<D>(list: seq<Migration<D>>, db: Database<D>, stop: nat)
    requires DistinctIds(list)
    ensures Run(list, db, stop) == ApplyAll(Missing(list[..if stop < |list| then stop else |list|], db.applied), db)
  {
    var end := if stop < |list| then stop else |list|;
    RunFromIsApplyAll(list, Elements(db.applied), db, 0, end);
    StopPastTheEnd(list, Elements(db.applied), db, 0, stop);
    assert list[0..end] == list[..end];
  }

  lemma {:induction false} StopPastTheEnd<D>(list: seq<Migration<D>>, applied: set<string>, db: Database<D>, i: nat,
      stop: nat)
    requires i <= |list|
    ensures stop > |list| ==> RunFrom(list, applied, db, i, stop) == RunFrom(list, applied, db, i, |list|)
    decreases |list| - i
  {
    if i < |list| {
      StopPastTheEnd(list, applied, db, i + 1, stop);
      var content := list[i].up(db.content);
      if content.Some? {
        StopPastTheEnd(list, applied, Database(content.value, Inserted(db.applied, list[i].id)), i + 1, stop);
      }
    }
  }

  /******* Stopping and starting again *******/

  lemma {:induction false} MissingAppend<D>(a: seq<Migration<D>>, b: seq<Migration<D>>, applied: seq<string>)
    ensures Missing(a + b, applied) == Missing(a, applied) + Missing(b, applied)
  {
    if a == [] {
      assert a + b == b;
    } else {
      assert (a + b)[1..] == a[1..] + b;
      MissingAppend(a[1..], b, applied);
    }
  }

  lemma {:induction false} MissingFacts<D>(list: seq<Migration<D>>, applied: seq<string>)
    requires DistinctIds(list)
    ensures DistinctIds(Missing(list, applied))
    ensures forall m | m in Missing(list, applied) :: m in list && m.id !in applied
  {
    if list != [] { MissingFacts(list[1..], applied); }
  }

  lemma {:induction false} MissingTwice<D>(list: seq<Migration<D>>, applied: seq<string>, more: seq<string>)
    requires applied <= more
    ensures Missing(Missing(list, applied), more) == Missing(list, more)
  {
    if list != [] {
      MissingTwice(list[1..], applied, more);
      if list[0].id !in applied {
        assert Missing(list, applied)[1..] == Missing(list[1..], applied);
      }
    }
  }

  lemma {:induction false} NothingApplied<D>(list: seq<Migration<D>>, applied: seq<string>)
    requires forall m | m in list :: m.id !in applied
    ensures Missing(list, applied) == list
  {
    if list != [] { NothingApplied(list[1..], applied); }
  }

  lemma {:induction false} AppliedGrows<D>(list: seq<Migration<D>>, db: Database<D>)
    ensures db.applied <= ApplyAll(list, db).applied
  {
    if list != [] {
      var content := list[0].up(db.content);
      if content.Some? { AppliedGrows(list[1..], Database(content.value, db.applied + [list[0].id])); }
    }
  }

  /** After any number of the missing migrations, applying what is then missing gives what applying all gives. */
  lemma {:induction false} ApplySomeThenAll<D>(list: seq<Migration<D>>, n: nat, db: Database<D>)
    requires DistinctIds(list) && n <= |list| && forall m | m in list :: m.id !in db.applied
    ensures var part := ApplyAll(list[..n], db);
      ApplyAll(Missing(list, part.applied), part) == ApplyAll(list, db)
  {
    if n == 0 || list[0].up(db.content).None? {
      NothingApplied(list, db.applied);
    } else {
      var m, rest := list[0], list[1..];
      var next := Database(m.up(db.content).value, db.applied + [m.id]);
      assert list[..n][1..] == rest[..n - 1];
      forall other | other in rest ensures other.id !in next.applied {
        var k :| 0 <= k < |rest| && rest[k] == other;
        assert list[k + 1] == other;
      }
      ApplySomeThenAll(rest, n - 1, next);
      var part := ApplyAll(rest[..n - 1], next);
      AppliedGrows(rest[..n - 1], next);
      assert m.id == part.applied[|db.applied|];
    }
  }

  lemma InterruptedThenFull<D>(list: seq<Migration<D>>, db: Database<D>, stop: nat)
    requires DistinctIds(list)
    ensures FullRun(list, Run(list, db, stop)) == FullRun(list, db)
  {
    var end := if stop < |list| then stop else |list|;
    var missing, first := Missing(list, db.applied), Missing(list[..end], db.applied);
    var part := Run(list, db, stop);
    RunIsApplyAll(list, db, stop);
    RunIsApplyAll(list, db, |list|);
    RunIsApplyAll(list, part, |list|);
    assert list[..|list|] == list == list[..end] + list[end..];
    MissingAppend(list[..end], list[end..], db.applied);
    MissingFacts(list, db.applied);
    assert missing[..|first|] == first;
    ApplySomeThenAll(missing, |first|, db);
    AppliedGrows(first, db);
    MissingTwice(list, db.applied, part.applied);
  }

  /******* Main results *******/

  /** Any number of runs interrupted anywhere, then a full run, end as one full run does, whatever had been applied
      before and whether or not a migration throws. */
  lemma {:induction false} RestartsDoNotMatter<D>(list: seq<Migration<D>>, db: Database<D>, stops: seq<nat>)
    requires DistinctIds(list)
    ensures FullRun(list, Runs(list, db, stops)) == FullRun(list, db)
    decreases |stops|
  {
    if stops != [] {
      RestartsDoNotMatter(list, Run(list, db, stops[0]), stops[1..]);
      InterruptedThenFull(list, db, stops[0]);
    }
  }

  lemma FurtherRunChangesNothing<D>(list: seq<Migration<D>>, db: Database<D>)
    requires DistinctIds(list)
    ensures FullRun(list, FullRun(list, db)) == FullRun(list, db)
  {
    InterruptedThenFull(list, db, |list|);
  }

  /** A database brought up to date with an older list, then with the same list grown at its end, ends as if only the
      newer list had been run. */
  lemma UpgradeFromOlderList<D>(older: seq<Migration<D>>, newer: seq<Migration<D>>, db: Database<D>)
    requires DistinctIds(older + newer)
    ensures FullRun(older + newer, FullRun(older, db)) == FullRun(older + newer, db)
  {
    var list := older + newer;
    assert DistinctIds(older) by {
      assert forall i | 0 <= i < |older| :: older[i] == list[i];
    }
    InterruptedThenFull(list, db, |older|);
    RunIsApplyAll(list, db, |older|);
    RunIsApplyAll(older, db, |older|);
    assert list[..|older|] == older == older[..|older|];
  }

  /** The content after applying the list in order. */
  function Composed<D>(list: seq<Migration<D>>, content: D): D
    requires AllSucceed(list, content)
  {
    if list == [] then content else Composed(list[1..], list[0].up(content).value)
  }

  lemma {:induction false} ApplyAllSucceeds<D>(list: seq<Migration<D>>, db: Database<D>)
    requires AllSucceed(list, db.content)
    ensures ApplyAll(list, db) == Database(Composed(list, db.content), db.applied + Ids(list))
  {
    if list != [] {
      var next := Database(list[0].up(db.content).value, db.applied + [list[0].id]);
      ApplyAllSucceeds(list[1..], next);
      assert next.applied + Ids(list[1..]) == db.applied + Ids(list);
    } else {
      assert db.applied + Ids(list) == db.applied;
    }
  }

  /** From an empty schema_migrations, after any interrupted runs and a full one, and if no migration throws: every
      migration was applied exactly once and in list order. */
  lemma EachOnceInOrder<D>(list: seq<Migration<D>>, content: D, stops: seq<nat>)
    requires DistinctIds(list) && AllSucceed(list, content)
    ensures FullRun(list, Runs(list, Database(content, []), stops)) == Database(Composed(list, content), Ids(list))
  {
    var db := Database(content, []);
    RestartsDoNotMatter(list, db, stops);
    RunIsApplyAll(list, db, |list|);
    assert list[..|list|] == list;
    NothingApplied(list, []);
    ApplyAllSucceeds(list, db);
  }

  /** The database is what the first n migrations make of `content`, recorded in order. */
  ghost predicate AtPrefix<D>(list: seq<Migration<D>>, content: D, n: nat, db: Database<D>)
  {
    && n <= |list| && AllSucceed(list[..n], content)
    && db == Database(Composed(list[..n], content), Ids(list[..n]))
  }

  lemma {:induction false} OneMore<D>(list: seq<Migration<D>>, content: D, m: Migration<D>)
    requires AllSucceed(list, content) && m.up(Composed(list, content)).Some?
    ensures AllSucceed(list + [m], content) && Ids(list + [m]) == Ids(list) + [m.id]
    ensures Composed(list + [m], content) == m.up(Composed(list, content)).value
  {
    if list == [] {
      assert [m][1..] == [];
      assert AllSucceed([m][1..], m.up(content).value);
      assert list + [m] == [m];
    } else {
      assert (list + [m])[1..] == list[1..] + [m];
      OneMore(list[1..], list[0].up(content).value, m);
    }
  }

  lemma {:induction false} ApplyFromPrefix<D>(list: seq<Migration<D>>, content: D, n: nat, end: nat, db: Database<D>)
      returns (n': nat)
    requires AtPrefix(list, content, n, db) && n <= end <= |list|
    ensures n <= n' && AtPrefix(list, content, n', ApplyAll(list[n..end], db))
    decreases end - n
  {
    n' := n;
    if n < end {
      var m := list[n];
      assert list[n..end] == [m] + list[n + 1..end];
      if m.up(db.content).Some? {
        OneMore(list[..n], content, m);
        assert list[..n + 1] == list[..n] + [m];
        n' := ApplyFromPrefix(list, content, n + 1, end, Database(m.up(db.content).value, db.applied + [m.id]));
      }
    }
  }

  lemma {:induction false} IdInIds<D>(list: seq<Migration<D>>, id: string)
    ensures id in Ids(list) <==> exists k :: 0 <= k < |list| && list[k].id == id
  {
    if list != [] {
      IdInIds(list[1..], id);
      if k :| 0 <= k < |list| && list[k].id == id {
        if k > 0 { assert list[1..][k - 1].id == id; }
      }
      if k :| 0 <= k < |list[1..]| && list[1..][k].id == id { assert list[k + 1].id == id; }
    }
  }

  lemma {:induction false} AllApplied<D>(list: seq<Migration<D>>, applied: seq<string>)
    requires forall m | m in list :: m.id in applied
    ensures Missing(list, applied) == []
  {
    if list != [] { AllApplied(list[1..], applied); }
  }

  /** What is missing up to `end` once the first n are applied. */
  lemma MissingAfterPrefix<D>(list: seq<Migration<D>>, n: nat, end: nat)
    requires DistinctIds(list) && n <= |list| && end <= |list|
    ensures Missing(list[..end], Ids(list[..n])) == if n <= end then list[n..end] else []
  {
    var applied := Ids(list[..n]);
    forall k | 0 <= k < |list| ensures list[k].id in applied <==> k < n {
      IdInIds(list[..n], list[k].id);
      if k < n { assert list[..n][k].id == list[k].id; }
    }
    if n <= end {
      assert list[..end] == list[..n] + list[n..end];
      MissingAppend(list[..n], list[n..end], applied);
      AllApplied(list[..n], applied);
      NothingApplied(list[n..end], applied);
    } else {
      AllApplied(list[..end], applied);
    }
  }

  /** Between runs, interrupted or failing, the database is always that of the first n' migrations applied once each and
      in order. */
  lemma {:induction false} AlwaysAtAPrefix<D>(list: seq<Migration<D>>, content: D, n: nat, db: Database<D>,
      stops: seq<nat>) returns (n': nat)
    requires DistinctIds(list) && AtPrefix(list, content, n, db)
    ensures n <= n' && AtPrefix(list, content, n', Runs(list, db, stops))
    decreases |stops|
  {
    n' := n;
    if stops != [] {
      var end := if stops[0] < |list| then stops[0] else |list|;
      RunIsApplyAll(list, db, stops[0]);
      MissingAfterPrefix(list, n, end);
      if n <= end { n' := ApplyFromPrefix(list, content, n, end, db); }
      n' := AlwaysAtAPrefix(list, content, n', Run(list, db, stops[0]), stops[1..]);
    }
  }

  /******* Distinct ids are needed *******/

  function Counting(ids: seq<string>): (list: seq<Migration<int>>)
    ensures |list| == |ids| && forall i | 0 <= i < |ids| :: list[i].id == ids[i] && list[i].up == Increment
  {
    seq(|ids|, i requires 0 <= i < |ids| => Migration(ids[i], Increment))
  }

  function Increment(n: int): Option<int> { Some(n + 1) }

  /** A counting list adds one for every migration that was not applied when the run began. */
  lemma {:induction false} CountingRun(ids: seq<string>, applied: set<string>, db: Database<int>, i: nat, stop: nat)
    requires i <= |ids|
    ensures var r := RunFrom(Counting(ids), applied, db, i, stop);
      && r.content <= db.content + |ids| - i
      && (applied == {} && stop <= |ids| && i <= stop ==>
            r.content == db.content + stop - i && forall k | i <= k < stop :: ids[k] in r.applied)
      && (forall id | id in db.applied :: id in r.applied)
    decreases |ids| - i
  {
    if i < |ids| && i < stop {
      var next := if ids[i] in applied then db else Database(db.content + 1, Inserted(db.applied, ids[i]));
      CountingRun(ids, applied, next, i + 1, stop);
    }
  }

  lemma {:induction false} SkipsApplied(ids: seq<string>, applied: set<string>, db: Database<int>, i: nat, n: nat)
    requires i <= n <= |ids| && forall k | i <= k < n :: ids[k] in applied
    ensures RunFrom(Counting(ids), applied, db, i, |ids|) == RunFrom(Counting(ids), applied, db, n, |ids|)
    decreases n - i
  {
    if i < n { SkipsApplied(ids, applied, db, i + 1, n); }
  }

  /** With a repeated id the same list gives another database when it is interrupted: restarts are harmless for every
      list of migrations with these ids exactly when the ids are distinct. */
  lemma RepeatedIdsBreakRestarts(ids: seq<string>, i: nat, j: nat)
    requires i < j < |ids| && ids[i] == ids[j]
    ensures var list, db := Counting(ids), Database(0, []);
      FullRun(list, Run(list, db, j)) != FullRun(list, db)
  {
    var list, db := Counting(ids), Database(0, []);
    assert Elements([]) == {};
    CountingRun(ids, {}, db, 0, j);
    CountingRun(ids, {}, db, 0, |ids|);
    var part := Run(list, db, j);
    var applied := Elements(part.applied);
    SkipsApplied(ids, applied, part, 0, j + 1);
    CountingRun(ids, applied, part, j + 1, |ids|);
  }

  /******* The list *******/

  const FIRST_IDS := [
    "001_init", "002_quality_reviews", "003_quality_review_status_backfill", "004_messages", "005_users",
    "006_workflow_templates", "007_audit_log", "008_webhooks"]

  const MIDDLE_IDS := [
    "009_pipelines", "010_settings", "011_alert_rules", "012_super_admin_tenants", "013_tenant_owner_gateway",
    "014_auth_google_approvals", "015_missing_indexes", "016_direct_connections"]

  const LAST_IDS := [
    "017_github_sync", "018_token_usage", "019_webhook_retry", "020_claude_sessions", "021_workspace_isolation_phase1",
    "022_workspace_isolation_phase2", "023_workspace_isolation_phase3"]

  function MigrationIds(): seq<string> { FIRST_IDS + MIDDLE_IDS + LAST_IDS }

  /** The number an id starts with. */
  function Number(id: string): int
  {
    if |id| < 3 then 0 else (id[1] as int - '0' as int) * 10 + (id[2] as int - '0' as int)
  }

  predicate NumberedFrom(ids: seq<string>, n: int) { forall i | 0 <= i < |ids| :: Number(ids[i]) == n + i }

  lemma FirstIdsNumbered()
    ensures |FIRST_IDS| == 8 && NumberedFrom(FIRST_IDS, 1)
  {
  }

  lemma MiddleIdsNumbered()
    ensures |MIDDLE_IDS| == 8 && NumberedFrom(MIDDLE_IDS, 9)
  {
  }

  lemma LastIdsNumbered()
    ensures |LAST_IDS| == 7 && NumberedFrom(LAST_IDS, 17)
  {
  }

  lemma NumberedAppend(a: seq<string>, b: seq<string>, n: int)
    requires NumberedFrom(a, n) && NumberedFrom(b, n + |a|)
    ensures NumberedFrom(a + b, n)
  {
  }

  lemma IdsNumbered()
    ensures NumberedFrom(MigrationIds(), 1)
  {
    FirstIdsNumbered();
    MiddleIdsNumbered();
    LastIdsNumbered();
    NumberedAppend(FIRST_IDS, MIDDLE_IDS, 1);
    NumberedAppend(FIRST_IDS + MIDDLE_IDS, LAST_IDS, 1);
  }

  lemma {:induction false} IdsAt<D>(list: seq<Migration<D>>)
    ensures forall i | 0 <= i < |list| :: Ids(list)[i] == list[i].id
  {
    if list != [] { IdsAt(list[1..]); }
  }

  lemma NumberedIsDistinct<D>(list: seq<Migration<D>>, n: int)
    requires NumberedFrom(Ids(list), n)
    ensures DistinctIds(list)
  {
    IdsAt(list);
    forall i, j | 0 <= i < j < |list| ensures list[i].id != list[j].id {
      assert Number(Ids(list)[i]) == n + i && Number(Ids(list)[j]) == n + j;
    }
  }

  /** So restarts do not matter for the list of the source, whatever its migrations do. */
  lemma ListSurvivesRestarts<D>(list: seq<Migration<D>>, db: Database<D>, stops: seq<nat>)
    requires Ids(list) == MigrationIds()
    ensures DistinctIds(list) && FullRun(list, Runs(list, db, stops)) == FullRun(list, db)
  {
    IdsNumbered();
    NumberedIsDistinct(list, 1);
    RestartsDoNotMatter(list, db, stops);
  }
}
