/**
 Synchronising agents from openclaw.json into the database, and the preview of it (src/lib/agent-sync.ts).
 The agents come as `mapAgentToMC` leaves them; the rows are those of the agents table, whose names are unique.
 */
module AgentSync {
  import opened Options

  /** `config` is the JSON text of the mapped settings, which always hold `isDefault`. */
  datatype Agent = Agent(name: string, role: string, config: string, soul: Option<string>)

  datatype Row = Row(role: string, config: Option<string>, soul: Option<string>)

  datatype Action = Created | Updated | Unchanged

  type Rows = map<string, Row>

  predicate IsConfig(text: string) { text != "" && text != "{}" }

  predicate AllConfigs(agents: seq<Agent>) { forall i | 0 <= i < |agents| :: IsConfig(agents[i].config) }

  /******* syncAgentsFromConfig *******/

  function ExistingConfig(row: Row): string
  {
    if row.config.None? || row.config.value == "" then "{}" else row.config.value
  }

  function ExistingSoul(row: Row): Option<string> { if row.soul == Some("") then None else row.soul }

  predicate ConfigChanged(row: Row, a: Agent) { ExistingConfig(row) != a.config || row.role != a.role }

  predicate SoulChanged(row: Row, a: Agent) { a.soul.Some? && a.soul != ExistingSoul(row) }

  function ActionFor(rows: Rows, a: Agent): Action
  {
    if a.name !in rows then Created
    else if ConfigChanged(rows[a.name], a) || SoulChanged(rows[a.name], a) then Updated
    else Unchanged
  }

  function Synced(rows: Rows, a: Agent): Rows
  {
    match ActionFor(rows, a)
    case Created => rows[a.name := Row(a.role, Some(a.config), a.soul)]
    case Updated =>
      rows[a.name := Row(a.role, Some(a.config), if a.soul.Some? then a.soul else ExistingSoul(rows[a.name]))]
    case Unchanged => rows
  }

  function RowsAfter(rows: Rows, agents: seq<Agent>): Rows
  {
    if agents == [] then rows else Synced(RowsAfter(rows, agents[..|agents| - 1]), agents[|agents| - 1])
  }

  function Actions(rows: Rows, agents: seq<Agent>): (r: seq<Action>)
    ensures |r| == |agents|
  {
    if agents == [] then []
    else
      var before := agents[..|agents| - 1];
      Actions(rows, before) + [ActionFor(RowsAfter(rows, before), agents[|agents| - 1])]
  }

  function Count(actions: seq<Action>, x: Action): nat
  {
    if actions == [] then 0 else Count(actions[..|actions| - 1], x) + (if actions[|actions| - 1] == x then 1 else 0)
  }

  lemma SyncStep(rows: Rows, agents: seq<Agent>, i: nat)
    requires i < |agents|
    ensures RowsAfter(rows, agents[..i + 1]) == Synced(RowsAfter(rows, agents[..i]), agents[i])
    ensures Actions(rows, agents[..i + 1]) == Actions(rows, agents[..i])
      + [ActionFor(RowsAfter(rows, agents[..i]), agents[i])]
  {
    assert agents[..i + 1][..i] == agents[..i];
  }

  lemma CountOne(actions: seq<Action>, y: Action)
    ensures Count(actions + [y], Created) == Count(actions, Created) + (if y == Created then 1 else 0)
    ensures Count(actions + [y], Updated) == Count(actions, Updated) + (if y == Updated then 1 else 0)
  {
    assert (actions + [y])[..|actions|] == actions;
  }

  datatype Diff = Diff(newAgents: seq<string>, updatedAgents: seq<string>, onlyInTable: set<string>)

  class AgentTable {
    var rows: Rows

    constructor (rows: Rows)
      ensures this.rows == rows
    {
      this.rows := rows;
    }

    method SyncAgents(agents: seq<Agent>) returns (created: nat, updated: nat, results: seq<Action>)
      modifies this
      ensures rows == RowsAfter(old(rows), agents) && results == Actions(old(rows), agents)
      ensures created == Count(results, Created) && updated == Count(results, Updated)
    {
      created, updated, results := 0, 0, [];
      for i := 0 to |agents|
        invariant rows == RowsAfter(old(rows), agents[..i]) && results == Actions(old(rows), agents[..i])
        invariant created == Count(results, Created) && updated == Count(results, Updated)
      {
        var a := agents[i];
        SyncStep(old(rows), agents, i);
        CountOne(results, ActionFor(rows, a));
        if a.name in rows {
          var existing := rows[a.name];
          if ConfigChanged(existing, a) || SoulChanged(existing, a) {
            var soul := if a.soul.Some? then a.soul else ExistingSoul(existing);
            rows := rows[a.name := Row(a.role, Some(a.config), soul)];
            results := results + [Updated];
            updated := updated + 1;
          } else {
            results := results + [Unchanged];
          }
        } else {
          rows := rows[a.name := Row(a.role, Some(a.config), a.soul)];
          results := results + [Created];
          created := created + 1;
        }
      }
      assert agents[..|agents|] == agents;
    }

    method PreviewSyncDiff(agents: seq<Agent>) returns (diff: Diff)
      ensures diff == Preview(rows, agents)
    {
      var newAgents, updatedAgents: seq<string>, configNames: set<string> := [], [], {};
      for i := 0 to |agents|
        invariant newAgents == NewNames(rows, agents[..i]) && updatedAgents == ChangedNames(rows, agents[..i])
        invariant configNames == NameSet(agents[..i])
      {
        var a := agents[i];
        assert agents[..i + 1][..i] == agents[..i];
        configNames := configNames + {a.name};
        if a.name !in rows {
          newAgents := newAgents + [a.name];
        } else if rows[a.name].config != Some(a.config) || rows[a.name].role != a.role {
          updatedAgents := updatedAgents + [a.name];
        }
      }
      assert agents[..|agents|] == agents;
      diff := Diff(newAgents, updatedAgents, rows.Keys - configNames);
    }
  }

  /******* previewSyncDiff *******/

  function NewNames(rows: Rows, agents: seq<Agent>): seq<string>
  {
    if agents == [] then []
    else
      var a := agents[|agents| - 1];
      NewNames(rows, agents[..|agents| - 1]) + (if a.name !in rows then [a.name] else [])
  }

  /** The preview marks agent a as updated. */
  predicate Marked(rows: Rows, a: Agent)
  {
    a.name in rows && (rows[a.name].config != Some(a.config) || rows[a.name].role != a.role)
  }

  function ChangedNames(rows: Rows, agents: seq<Agent>): seq<string>
  {
    if agents == [] then []
    else
      var a := agents[|agents| - 1];
      ChangedNames(rows, agents[..|agents| - 1]) +
      (if Marked(rows, a) then [a.name] else [])
  }

  function NameSet(agents: seq<Agent>): set<string> { set i | 0 <= i < |agents| :: agents[i].name }

  function Preview(rows: Rows, agents: seq<Agent>): Diff
  {
    Diff(NewNames(rows, agents), ChangedNames(rows, agents), rows.Keys - NameSet(agents))
  }

  /******* A second sync *******/

  /** Agents of one name agree on everything they set, and no soul file is empty. */
  predicate Stable(agents: seq<Agent>)
  {
    && (forall i | 0 <= i < |agents| :: agents[i].soul != Some(""))
    && forall i, j | 0 <= i < j < |agents| && agents[i].name == agents[j].name :: Agree(agents[i], agents[j])
  }

  predicate Agree(a: Agent, b: Agent)
  {
    a.role == b.role && a.config == b.config && (a.soul.Some? && b.soul.Some? ==> a.soul == b.soul)
  }

  predicate AllSettled(rows: Rows, agents: seq<Agent>)
  {
    forall i | 0 <= i < |agents| :: ActionFor(rows, agents[i]) == Unchanged
  }

  predicate AllUnchanged(actions: seq<Action>) { forall i | 0 <= i < |actions| :: actions[i] == Unchanged }

  /** A sync does nothing exactly when nothing is to be done for any agent in the rows as they are. */
  lemma {:induction false} IdleSync(rows: Rows, agents: seq<Agent>)
    ensures AllUnchanged(Actions(rows, agents)) <==> AllSettled(rows, agents)
    ensures AllUnchanged(Actions(rows, agents)) ==> RowsAfter(rows, agents) == rows
  {
    if agents != [] {
      var before, n := agents[..|agents| - 1], |agents| - 1;
      IdleSync(rows, before);
      var actions := Actions(rows, agents);
      assert actions[..n] == Actions(rows, before);
      assert AllUnchanged(actions) <==> AllUnchanged(actions[..n]) && actions[n] == Unchanged;
      assert AllSettled(rows, agents) <==> AllSettled(rows, before) && ActionFor(rows, agents[n]) == Unchanged;
    }
  }

  lemma OneSettles(rows: Rows, a: Agent)
    requires IsConfig(a.config) && a.soul != Some("")
    ensures ActionFor(Synced(rows, a), a) == Unchanged
  {
  }

  lemma StaysSettled(rows: Rows, a: Agent, b: Agent)
    requires ActionFor(rows, a) == Unchanged && IsConfig(a.config) && a.soul != Some("") && b.soul != Some("")
    requires a.name == b.name ==> Agree(a, b)
    ensures ActionFor(Synced(rows, b), a) == Unchanged
  {
  }

  lemma {:induction false} StableSettles(rows: Rows, agents: seq<Agent>)
    requires AllConfigs(agents) && Stable(agents)
    ensures AllSettled(RowsAfter(rows, agents), agents)
  {
    if agents != [] {
      var before, b := agents[..|agents| - 1], agents[|agents| - 1];
      StableSettles(rows, before);
      var middle := RowsAfter(rows, before);
      forall i | 0 <= i < |agents| ensures ActionFor(Synced(middle, b), agents[i]) == Unchanged {
        if i < |before| {
          assert before[i] == agents[i];
          StaysSettled(middle, agents[i], b);
        } else {
          OneSettles(middle, b);
        }
      }
    }
  }

  lemma SettledIsStable(rows: Rows, agents: seq<Agent>)
    requires AllSettled(rows, agents)
    ensures Stable(agents)
  {
    forall i | 0 <= i < |agents| ensures agents[i].soul != Some("") {
      assert ActionFor(rows, agents[i]) == Unchanged;
    }
    forall i, j | 0 <= i < j < |agents| && agents[i].name == agents[j].name ensures Agree(agents[i], agents[j]) {
      assert ActionFor(rows, agents[i]) == Unchanged && ActionFor(rows, agents[j]) == Unchanged;
    }
  }

  /** Whatever was in the table, a second sync creates and updates nothing exactly when no soul file is empty and agents
      that share a name agree; then it leaves every row alone. */
  lemma SecondSync(rows: Rows, agents: seq<Agent>)
    requires AllConfigs(agents)
    ensures var once := RowsAfter(rows, agents);
      && (AllUnchanged(Actions(once, agents)) <==> Stable(agents))
      && (Stable(agents) ==> RowsAfter(once, agents) == once)
  {
    var once := RowsAfter(rows, agents);
    IdleSync(once, agents);
    if Stable(agents) {
      StableSettles(rows, agents);
    } else if AllSettled(once, agents) {
      SettledIsStable(once, agents);
    }
  }

  /******* Preview and sync *******/

  /** The names to which a sync gives the action, in order. */
  function NamesWith(rows: Rows, agents: seq<Agent>, x: Action): seq<string>
  {
    if agents == [] then []
    else
      var before, a := agents[..|agents| - 1], agents[|agents| - 1];
      NamesWith(rows, before, x) + (if ActionFor(RowsAfter(rows, before), a) == x then [a.name] else [])
  }

  /** The names a sync updates because of config or role, in order. */
  function NamesReconfigured(rows: Rows, agents: seq<Agent>): seq<string>
  {
    if agents == [] then []
    else
      var before, a := agents[..|agents| - 1], agents[|agents| - 1];
      var now := RowsAfter(rows, before);
      NamesReconfigured(rows, before) +
      (if ActionFor(now, a) == Updated && ConfigChanged(now[a.name], a) then [a.name] else [])
  }

  predicate DistinctNames(agents: seq<Agent>)
  {
    forall i, j | 0 <= i < j < |agents| :: agents[i].name != agents[j].name
  }

  lemma {:induction false} OthersUntouched(rows: Rows, agents: seq<Agent>, name: string)
    requires forall i | 0 <= i < |agents| :: agents[i].name != name
    ensures name in RowsAfter(rows, agents) <==> name in rows
    ensures name in rows ==> RowsAfter(rows, agents)[name] == rows[name]
  {
    if agents != [] { OthersUntouched(rows, agents[..|agents| - 1], name); }
  }

  /** With distinct names, the preview lists exactly the names the sync creates and exactly those it updates for
      config or role, each once and in the order of the sync. */
  lemma {:induction false} PreviewIsAccurate(rows: Rows, agents: seq<Agent>)
    requires AllConfigs(agents) && DistinctNames(agents)
    ensures Preview(rows, agents).newAgents == NamesWith(rows, agents, Created)
    ensures Preview(rows, agents).updatedAgents == NamesReconfigured(rows, agents)
  {
    if agents != [] {
      var before, a := agents[..|agents| - 1], agents[|agents| - 1];
      PreviewIsAccurate(rows, before);
      OthersUntouched(rows, before, a.name);
    }
  }

  lemma {:induction false} KeysAfter(rows: Rows, agents: seq<Agent>)
    ensures RowsAfter(rows, agents).Keys == rows.Keys + NameSet(agents)
  {
    if agents != [] {
      var before := agents[..|agents| - 1];
      KeysAfter(rows, before);
      assert NameSet(agents) == NameSet(before) + {agents[|agents| - 1].name};
    }
  }

  /** After a sync every agent of the file has a row, and the preview's last list is what the file does not know. */
  lemma {:induction false} OnlyInTableStays(rows: Rows, agents: seq<Agent>, name: string)
    requires name in Preview(rows, agents).onlyInTable
    ensures name in rows && name in RowsAfter(rows, agents) && RowsAfter(rows, agents)[name] == rows[name]
  {
    forall i | 0 <= i < |agents| ensures agents[i].name != name {
      assert agents[i].name in NameSet(agents);
    }
    OthersUntouched(rows, agents, name);
  }

  predicate NoRepeats(names: seq<string>) { forall i, j | 0 <= i < j < |names| :: names[i] != names[j] }

  lemma {:induction false} CreatedOnce(rows: Rows, agents: seq<Agent>)
    ensures NoRepeats(NamesWith(rows, agents, Created))
    ensures forall i | 0 <= i < |NamesWith(rows, agents, Created)| ::
      NamesWith(rows, agents, Created)[i] !in rows && NamesWith(rows, agents, Created)[i] in NameSet(agents)
  {
    if agents != [] {
      var before, a := agents[..|agents| - 1], agents[|agents| - 1];
      CreatedOnce(rows, before);
      KeysAfter(rows, before);
      assert NameSet(agents) == NameSet(before) + {a.name};
    }
  }

  lemma {:induction false} NewNamesAreNew(rows: Rows, agents: seq<Agent>)
    ensures forall name :: name in NewNames(rows, agents) <==> name in NameSet(agents) && name !in rows
  {
    if agents != [] {
      var before, a := agents[..|agents| - 1], agents[|agents| - 1];
      NewNamesAreNew(rows, before);
      assert NameSet(agents) == NameSet(before) + {a.name};
    }
  }

  lemma LastIsNew(names: seq<string>, name: string)
    requires NoRepeats(names + [name])
    ensures NoRepeats(names) && name !in names
  {
    var longer := names + [name];
    forall i | 0 <= i < |names| ensures names[i] != name {
      assert longer[i] != longer[|names|];
    }
    forall i, j | 0 <= i < j < |names| ensures names[i] != names[j] {
      assert longer[i] != longer[j];
    }
  }

  lemma {:induction false} CreatedAreNew(rows: Rows, agents: seq<Agent>)
    requires NoRepeats(NewNames(rows, agents))
    ensures NewNames(rows, agents) == NamesWith(rows, agents, Created)
  {
    if agents != [] {
      var before, a := agents[..|agents| - 1], agents[|agents| - 1];
      var earlier := NewNames(rows, before);
      if a.name !in rows {
        LastIsNew(earlier, a.name);
      } else {
        assert NewNames(rows, agents) == earlier;
      }
      CreatedAreNew(rows, before);
      KeysAfter(rows, before);
      NewNamesAreNew(rows, before);
    }
  }

  /** Agents that share a name have a row already. */
  predicate NewNamesDistinct(rows: Rows, agents: seq<Agent>)
  {
    forall i, j | 0 <= i < j < |agents| && agents[i].name == agents[j].name :: agents[i].name in rows
  }

  lemma LastMakesRepeat(rows: Rows, before: seq<Agent>, a: Agent)
    ensures NewNamesDistinct(rows, before + [a])
      <==> NewNamesDistinct(rows, before) && (a.name in rows || a.name !in NameSet(before))
  {
    var agents := before + [a];
    if NewNamesDistinct(rows, agents) {
      forall i | 0 <= i < |before| && before[i].name == a.name ensures a.name in rows {
        assert agents[i].name == agents[|before|].name;
      }
      forall i, j | 0 <= i < j < |before| && before[i].name == before[j].name ensures before[i].name in rows {
        assert agents[i].name == agents[j].name;
      }
    }
    forall i | 0 <= i < |before| ensures before[i].name in NameSet(before) {}
  }

  lemma {:induction false} RepeatsExactly(rows: Rows, agents: seq<Agent>)
    ensures NoRepeats(NewNames(rows, agents)) <==> NewNamesDistinct(rows, agents)
  {
    if agents != [] {
      var before, a := agents[..|agents| - 1], agents[|agents| - 1];
      var earlier := NewNames(rows, before);
      RepeatsExactly(rows, before);
      assert agents == before + [a];
      LastMakesRepeat(rows, before, a);
      NewNamesAreNew(rows, before);
      if a.name in rows {
        assert NewNames(rows, agents) == earlier;
      } else {
        assert NewNames(rows, agents) == earlier + [a.name];
        if NoRepeats(earlier + [a.name]) { LastIsNew(earlier, a.name); }
      }
    }
  }

  /** For any names, the list of new agents is what the sync creates exactly when agents that share a name have a row
      already. */
  lemma NewAgentsExactly(rows: Rows, agents: seq<Agent>)
    ensures Preview(rows, agents).newAgents == NamesWith(rows, agents, Created) <==> NewNamesDistinct(rows, agents)
  {
    CreatedOnce(rows, agents);
    RepeatsExactly(rows, agents);
    if NoRepeats(NewNames(rows, agents)) { CreatedAreNew(rows, agents); }
  }

  /******* The updated list with repeated names *******/

  /** The sync updates agent i for config or role. */
  predicate Reconfigured(rows: Rows, agents: seq<Agent>, i: nat)
    requires i < |agents|
  {
    var now := RowsAfter(rows, agents[..i]);
    agents[i].name in now && ConfigChanged(now[agents[i].name], agents[i])
  }

  /** Agent j is the last before agent i with its name. */
  predicate Precedes(agents: seq<Agent>, j: nat, i: nat)
  {
    j < i < |agents| && agents[j].name == agents[i].name && forall k | j < k < i :: agents[k].name != agents[i].name
  }

  predicate Differ(a: Agent, b: Agent) { a.config != b.config || a.role != b.role }

  lemma {:induction false} RowOfPredecessor(rows: Rows, agents: seq<Agent>, j: nat, n: nat)
    requires AllConfigs(agents) && j < n <= |agents|
    requires forall k | j < k < n :: agents[k].name != agents[j].name
    ensures var now, a := RowsAfter(rows, agents[..n]), agents[j];
      a.name in now && now[a.name].role == a.role && ExistingConfig(now[a.name]) == a.config
  {
    var before := agents[..n - 1];
    assert agents[..n][..n - 1] == before;
    if j < n - 1 { RowOfPredecessor(rows, agents, j, n - 1); }
  }

  lemma FirstIsMarkedRightly(rows: Rows, agents: seq<Agent>, i: nat)
    requires AllConfigs(agents) && i < |agents| && forall k | 0 <= k < i :: agents[k].name != agents[i].name
    ensures Marked(rows, agents[i]) <==> Reconfigured(rows, agents, i)
  {
    OthersUntouched(rows, agents[..i], agents[i].name);
  }

  lemma LaterIsReconfigured(rows: Rows, agents: seq<Agent>, j: nat, i: nat)
    requires AllConfigs(agents) && Precedes(agents, j, i)
    ensures Reconfigured(rows, agents, i) <==> Differ(agents[j], agents[i])
  {
    RowOfPredecessor(rows, agents, j, i);
  }

  lemma {:induction false} FindPredecessor(agents: seq<Agent>, i: nat, n: nat) returns (j: int)
    requires n <= i < |agents| && forall k | n <= k < i :: agents[k].name != agents[i].name
    ensures j == -1 ==> forall k | 0 <= k < i :: agents[k].name != agents[i].name
    ensures j == -1 || (0 <= j && Precedes(agents, j, i))
  {
    if n == 0 {
      j := -1;
    } else if agents[n - 1].name == agents[i].name {
      j := n - 1;
    } else {
      j := FindPredecessor(agents, i, n - 1);
    }
  }

  /** For any names, the preview marks exactly the agents the sync updates for config or role, when and only when every
      agent that repeats a name is marked exactly if it differs from the one before it with that name. */
  lemma UpdatedExactly(rows: Rows, agents: seq<Agent>)
    requires AllConfigs(agents)
    ensures (forall i | 0 <= i < |agents| :: Marked(rows, agents[i]) <==> Reconfigured(rows, agents, i))
      <==> (forall j: nat, i: nat | Precedes(agents, j, i) :: Marked(rows, agents[i]) <==> Differ(agents[j], agents[i]))
  {
    forall j: nat, i: nat | Precedes(agents, j, i)
      ensures Reconfigured(rows, agents, i) <==> Differ(agents[j], agents[i])
    {
      LaterIsReconfigured(rows, agents, j, i);
    }
    forall i | 0 <= i < |agents|
      ensures (Marked(rows, agents[i]) <==> Reconfigured(rows, agents, i)) || exists j: nat :: Precedes(agents, j, i)
    {
      var j := FindPredecessor(agents, i, i);
      if j == -1 { FirstIsMarkedRightly(rows, agents, i); } else { assert Precedes(agents, j, i); }
    }
  }

  /******* What a sync leaves in a row *******/

  /** Agent j is the last of its name. */
  predicate IsLast(agents: seq<Agent>, name: string, j: nat)
  {
    j < |agents| && agents[j].name == name && forall k | j < k < |agents| :: agents[k].name != name
  }

  /** Agent m is the last of its name that has a soul file. */
  predicate IsLastSoul(agents: seq<Agent>, name: string, m: nat)
  {
    && m < |agents| && agents[m].name == name && agents[m].soul.Some?
    && forall k | m < k < |agents| && agents[k].name == name :: agents[k].soul.None?
  }

  predicate NoSoul(agents: seq<Agent>, name: string)
  {
    forall k | 0 <= k < |agents| && agents[k].name == name :: agents[k].soul.None?
  }

  /** A stored soul as it is read: the empty text counts as none. */
  function SoulText(soul: Option<string>): Option<string> { if soul == Some("") then None else soul }

  lemma IsLastOfPrefix(agents: seq<Agent>, name: string, j: nat)
    requires IsLast(agents, name, j) && j < |agents| - 1
    ensures agents[|agents| - 1].name != name && IsLast(agents[..|agents| - 1], name, j)
  {
  }

  lemma {:induction false} RoleAndConfigAfter(rows: Rows, agents: seq<Agent>, name: string, j: nat)
    requires AllConfigs(agents) && IsLast(agents, name, j)
    ensures name in RowsAfter(rows, agents)
    ensures RowsAfter(rows, agents)[name].role == agents[j].role
    ensures RowsAfter(rows, agents)[name].config == Some(agents[j].config)
  {
    if j < |agents| - 1 {
      IsLastOfPrefix(agents, name, j);
      RoleAndConfigAfter(rows, agents[..|agents| - 1], name, j);
    }
  }

  lemma {:induction false} SoulAfter(rows: Rows, agents: seq<Agent>, name: string, m: nat)
    requires IsLastSoul(agents, name, m)
    ensures name in RowsAfter(rows, agents)
    ensures SoulText(RowsAfter(rows, agents)[name].soul) == SoulText(agents[m].soul)
  {
    var before := agents[..|agents| - 1];
    if m < |agents| - 1 {
      assert IsLastSoul(before, name, m);
      SoulAfter(rows, before, name, m);
    }
  }

  lemma {:induction false} SoulWithoutFile(rows: Rows, agents: seq<Agent>, name: string)
    requires NoSoul(agents, name) && name in RowsAfter(rows, agents)
    ensures SoulText(RowsAfter(rows, agents)[name].soul) == if name in rows then SoulText(rows[name].soul) else None
  {
    if agents != [] {
      var before := agents[..|agents| - 1];
      assert NoSoul(before, name);
      if name in RowsAfter(rows, before) {
        SoulWithoutFile(rows, before, name);
      } else {
        KeysAfter(rows, before);
      }
    }
  }

  /** For any table and agents, the row a sync leaves for a name of the file: role and config of the last agent of that
      name; the soul of the last one that has a soul file, and if none has, the soul that was stored. */
  lemma RowAfterSync(rows: Rows, agents: seq<Agent>, name: string, j: nat)
    requires AllConfigs(agents) && IsLast(agents, name, j)
    ensures name in RowsAfter(rows, agents)
    ensures RowsAfter(rows, agents)[name].role == agents[j].role
    ensures RowsAfter(rows, agents)[name].config == Some(agents[j].config)
    ensures forall m: nat | IsLastSoul(agents, name, m) ::
      SoulText(RowsAfter(rows, agents)[name].soul) == SoulText(agents[m].soul)
    ensures NoSoul(agents, name) ==>
      SoulText(RowsAfter(rows, agents)[name].soul) == if name in rows then SoulText(rows[name].soul) else None
  {
    RoleAndConfigAfter(rows, agents, name, j);
    forall m: nat | IsLastSoul(agents, name, m)
      ensures SoulText(RowsAfter(rows, agents)[name].soul) == SoulText(agents[m].soul)
    {
      SoulAfter(rows, agents, name, m);
    }
    if NoSoul(agents, name) { SoulWithoutFile(rows, agents, name); }
  }

  /** The soul file of agent m was empty and nothing was rewritten since. */
  predicate EmptyFrom(agents: seq<Agent>, name: string, m: nat)
  {
    && IsLastSoul(agents, name, m) && agents[m].soul == Some("")
    && forall k | m < k < |agents| && agents[k].name == name :: !Differ(agents[m], agents[k])
  }

  /** The stored soul was empty and nothing is rewritten. */
  predicate EmptyFromTable(rows: Rows, agents: seq<Agent>, name: string)
  {
    && NoSoul(agents, name) && name in rows && rows[name].soul == Some("")
    && forall k | 0 <= k < |agents| && agents[k].name == name :: !ConfigChanged(rows[name], agents[k])
  }

  lemma EmptyFromGrows(agents: seq<Agent>, a: Agent, m: nat)
    requires m < |agents|
    ensures EmptyFrom(agents + [a], a.name, m)
      <==> EmptyFrom(agents, a.name, m) && a.soul.None? && !Differ(agents[m], a)
  {
    var longer := agents + [a];
    assert longer[|agents|] == a && agents == longer[..|agents|];
    if EmptyFrom(longer, a.name, m) {
      forall k | m < k < |agents| && agents[k].name == a.name
        ensures agents[k].soul.None? && !Differ(agents[m], agents[k])
      {
        assert longer[k] == agents[k];
      }
    }
  }

  lemma EmptyFromTableGrows(rows: Rows, agents: seq<Agent>, a: Agent)
    ensures EmptyFromTable(rows, agents + [a], a.name)
      <==> EmptyFromTable(rows, agents, a.name) && a.soul.None? && !ConfigChanged(rows[a.name], a)
  {
    var longer := agents + [a];
    assert longer[|agents|] == a;
    if EmptyFromTable(rows, longer, a.name) {
      forall k | 0 <= k < |agents| && agents[k].name == a.name
        ensures agents[k].soul.None? && !ConfigChanged(rows[a.name], agents[k])
      {
        assert longer[k] == agents[k];
      }
    }
  }

  lemma OtherNameGrows(rows: Rows, agents: seq<Agent>, a: Agent, name: string)
    requires a.name != name
    ensures EmptyFromTable(rows, agents + [a], name) <==> EmptyFromTable(rows, agents, name)
    ensures forall m | 0 <= m < |agents| :: EmptyFrom(agents + [a], name, m) <==> EmptyFrom(agents, name, m)
  {
    var longer := agents + [a];
    assert agents == longer[..|agents|];
    assert forall k | 0 <= k < |agents| :: longer[k] == agents[k];
  }

  /** While nothing was rewritten since agent m, or at all, the row has those settings. */
  lemma {:induction false} SettingsKept(rows: Rows, agents: seq<Agent>, name: string)
    requires AllConfigs(agents)
    ensures forall m: nat | EmptyFrom(agents, name, m) ::
      && name in RowsAfter(rows, agents) && RowsAfter(rows, agents)[name].role == agents[m].role
      && ExistingConfig(RowsAfter(rows, agents)[name]) == agents[m].config
    ensures EmptyFromTable(rows, agents, name) ==>
      && name in RowsAfter(rows, agents) && RowsAfter(rows, agents)[name].role == rows[name].role
      && ExistingConfig(RowsAfter(rows, agents)[name]) == ExistingConfig(rows[name])
  {
    if agents != [] {
      var before, a := agents[..|agents| - 1], agents[|agents| - 1];
      SettingsKept(rows, before, name);
      assert agents == before + [a];
      if a.name == name {
        EmptyFromTableGrows(rows, before, a);
        forall m: nat | m < |before| { EmptyFromGrows(before, a, m); }
      } else {
        OtherNameGrows(rows, before, a, name);
      }
    }
  }

  /** A sync leaves an empty soul exactly where the last soul file of the name is empty and no later agent of that name
      differs in config or role, or no agent of it has a soul file, the table held an empty one, and none differs from
      the row. */
  lemma {:induction false} EmptySoulExactly(rows: Rows, agents: seq<Agent>, name: string)
    requires AllConfigs(agents)
    ensures name in RowsAfter(rows, agents) && RowsAfter(rows, agents)[name].soul == Some("")
      <==> EmptyFromTable(rows, agents, name) || exists m: nat :: EmptyFrom(agents, name, m)
  {
    if agents != [] {
      var before, a := agents[..|agents| - 1], agents[|agents| - 1];
      EmptySoulExactly(rows, before, name);
      SettingsKept(rows, before, name);
      assert agents == before + [a];
      if a.name == name {
        EmptyFromTableGrows(rows, before, a);
        forall m: nat | m < |before| ensures EmptyFrom(agents, name, m)
          <==> EmptyFrom(before, name, m) && a.soul.None? && !Differ(before[m], a)
        {
          EmptyFromGrows(before, a, m);
        }
        if a.soul == Some("") { assert EmptyFrom(agents, name, |before|); }
      } else {
        OtherNameGrows(rows, before, a, name);
      }
    }
  }
}
