/**
 Writing an agent back to openclaw.json (src/lib/agent-sync.ts): `deepMerge` and `writeAgentToConfig`.
 JSON objects are maps: the order of their keys is not modelled.
 */
module ConfigMerge {
  import opened Options

  datatype Json = Null | Bool(b: bool) | Num(n: real) | Str(s: string) | Arr(items: seq<Json>) | Obj(fields: Fields)

  type Fields = map<string, Json>

  /******* deepMerge *******/

  /** The merge of two values found under one key; `deepMerge` itself is only called on two objects. */
  function Merge(target: Json, source: Json): (r: Json)
    ensures source.Obj? ==> r.Obj?
    decreases source
  {
    if source.Obj? && target.Obj? then
      Obj(map key | key in target.fields.Keys + source.fields.Keys ::
            if key !in source.fields then target.fields[key]
            else if key !in target.fields then source.fields[key]
            else Merge(target.fields[key], source.fields[key]))
    else source
  }

  function DeepMerge(target: Fields, source: Fields): Fields { Merge(Obj(target), Obj(source)).fields }

  lemma MergedKeys(target: Fields, source: Fields)
    ensures DeepMerge(target, source).Keys == target.Keys + source.Keys
  {
  }

  lemma MergedField(target: Fields, source: Fields, key: string)
    requires key in target || key in source
    ensures key in DeepMerge(target, source)
    ensures DeepMerge(target, source)[key] == if key !in source then target[key]
                                              else if key !in target then source[key]
                                                else Merge(target[key], source[key])
  {
  }

  ghost predicate MergedExcept(target: Fields, source: Fields, left: set<string>, result: Fields)
  {
    && result.Keys == target.Keys + (source.Keys - left)
    && forall key | key in result ::
         result[key] == if key in source && key !in left then DeepMerge(target, source)[key] else target[key]
  }

  lemma NoneLeft(target: Fields, source: Fields, result: Fields)
    requires MergedExcept(target, source, {}, result)
    ensures result == DeepMerge(target, source)
  {
    MergedKeys(target, source);
    forall key | key in result ensures result[key] == DeepMerge(target, source)[key] {
      MergedField(target, source, key);
    }
  }

  lemma OneLess(target: Fields, source: Fields, left: set<string>, result: Fields, key: string)
    requires left <= source.Keys && key in left && MergedExcept(target, source, left, result)
    ensures MergedExcept(target, source, left - {key}, result[key := DeepMerge(target, source)[key]])
  {
    MergedKeys(target, source);
  }

  method MergeDeeply(target: Fields, source: Fields) returns (result: Fields)
    ensures result == DeepMerge(target, source)
    decreases Obj(source)
  {
    result := target;
    var left := source.Keys;
    while left != {}
      invariant left <= source.Keys && MergedExcept(target, source, left, result)
      decreases |left|
    {
      var key :| key in left;
      MergedField(target, source, key);
      OneLess(target, source, left, result, key);
      if source[key].Obj? && key in target && target[key].Obj? {
        var inner := MergeDeeply(target[key].fields, source[key].fields);
        result := result[key := Obj(inner)];
      } else {
        result := result[key := source[key]];
      }
      left := left - {key};
    }
    NoneLeft(target, source, result);
  }

  /******* Paths *******/

  function Lookup(j: Json, path: seq<string>): Option<Json>
    decreases |path|
  {
    if path == [] then Some(j)
    else if j.Obj? && path[0] in j.fields then Lookup(j.fields[path[0]], path[1..])
    else None
  }

  /** A proper part of the path leads to something that is not an object. */
  predicate CutsOff(j: Json, path: seq<string>)
    decreases |path|
  {
    path != [] && (!j.Obj? || (path[0] in j.fields && CutsOff(j.fields[path[0]], path[1..])))
  }

  /** What every path holds after the merge.  Where both sides hold something, the two are merged; where only the
      source does, it is taken over; where the source does not, the target's value stays unless the source cuts the
      path off. */
  lemma {:induction false} MergeByPath(target: Json, source: Json, path: seq<string>)
    ensures Lookup(Merge(target, source), path) ==
      if Lookup(source, path).Some? then
        if Lookup(target, path).Some?
        then Some(Merge(Lookup(target, path).value, Lookup(source, path).value))
        else Lookup(source, path)
      else if CutsOff(source, path) then None
      else Lookup(target, path)
    decreases |path|
  {
    if path != [] && target.Obj? && source.Obj? {
      var key := path[0];
      MergedKeys(target.fields, source.fields);
      if key in source.fields || key in target.fields { MergedField(target.fields, source.fields, key); }
      if key in source.fields && key in target.fields {
        MergeByPath(target.fields[key], source.fields[key], path[1..]);
      }
    }
  }

  lemma {:induction false} LeavesOfSourceArrive(target: Json, source: Json, path: seq<string>)
    requires Lookup(source, path).Some? && !Lookup(source, path).value.Obj?
    ensures Lookup(Merge(target, source), path) == Lookup(source, path)
  {
    MergeByPath(target, source, path);
  }

  lemma {:induction false} OtherPathsStay(target: Json, source: Json, path: seq<string>)
    requires Lookup(source, path).None? && !CutsOff(source, path)
    ensures Lookup(Merge(target, source), path) == Lookup(target, path)
  {
    MergeByPath(target, source, path);
  }

  lemma {:induction false} MergeWithItself(j: Json)
    ensures Merge(j, j) == j
    decreases j
  {
    if j.Obj? {
      forall key | key in j.fields ensures Merge(j.fields[key], j.fields[key]) == j.fields[key] {
        MergeWithItself(j.fields[key]);
      }
      assert DeepMerge(j.fields, j.fields) == j.fields;
    }
  }

  /** Merging the same source again changes nothing. */
  lemma {:induction false} MergeTwice(target: Json, source: Json)
    ensures Merge(Merge(target, source), source) == Merge(target, source)
    decreases source
  {
    if !source.Obj? {
    } else if !target.Obj? {
      MergeWithItself(source);
    } else {
      var once := DeepMerge(target.fields, source.fields);
      MergedKeys(target.fields, source.fields);
      MergedKeys(once, source.fields);
      forall key | key in once ensures DeepMerge(once, source.fields)[key] == once[key] {
        MergedField(target.fields, source.fields, key);
        MergedField(once, source.fields, key);
        if key in source.fields {
          MergeWithItself(source.fields[key]);
          if key in target.fields { MergeTwice(target.fields[key], source.fields[key]); }
        }
      }
      assert DeepMerge(once, source.fields) == once;
    }
  }

  /******* writeAgentToConfig *******/

  predicate Truthy(j: Json) { !j.Null? && j != Bool(false) && j != Num(0.0) && j != Str("") }

  predicate Has(fields: Fields, key: string) { key in fields && Truthy(fields[key]) }

  /** None is `undefined`; so is the id of an entry that is not an object. */
  function Id(entry: Json): Option<Json>
  {
    if entry.Obj? && "id" in entry.fields then Some(entry.fields["id"]) else None
  }

  /** `===`: two parsed arrays or objects are never the same. */
  predicate SameId(a: Option<Json>, b: Option<Json>) { a == b && (a.None? || (!a.value.Arr? && !a.value.Obj?)) }

  function Digits(n: nat): string { (if n < 10 then "" else Digits(n / 10)) + ['0' + (n % 10) as char] }

  function Indexed(items: seq<Json>): Fields
  {
    if items == [] then map[]
    else Indexed(items[..|items| - 1])[Digits(|items| - 1) := items[|items| - 1]]
  }

  function Number(s: string): int
  {
    if s == "" then 0 else 10 * Number(s[..|s| - 1]) + (s[|s| - 1] as int - '0' as int)
  }

  lemma {:induction false} NumberOfDigits(n: nat)
    ensures Number(Digits(n)) == n
  {
    if n >= 10 { NumberOfDigits(n / 10); }
  }

  lemma DistinctDigits(m: nat, n: nat)
    ensures Digits(m) == Digits(n) ==> m == n
  {
    NumberOfDigits(m);
    NumberOfDigits(n);
  }

  /** The fields are the items under the names of their places. */
  ghost predicate ByPlace(fields: Fields, items: seq<Json>, name: nat -> string)
  {
    && (forall k: nat | k < |items| :: name(k) in fields && fields[name(k)] == items[k])
    && (forall key | key in fields :: exists k: nat :: k < |items| && key == name(k))
  }

  lemma OneMorePlace(fields: Fields, items: seq<Json>, last: Json, name: nat -> string)
    requires ByPlace(fields, items, name) && forall m, n :: name(m) == name(n) ==> m == n
    ensures ByPlace(fields[name(|items|) := last], items + [last], name)
  {
    var longer := items + [last];
    forall key | key in fields ensures exists k: nat :: k < |longer| && key == name(k) {
      var k: nat :| k < |items| && key == name(k);
      assert k < |longer|;
    }
  }

  /** Copying a list gives each item under the decimal number of its place, and nothing else. */
  lemma {:induction false} IndexedExactly(items: seq<Json>)
    ensures ByPlace(Indexed(items), items, Digits)
  {
    if items != [] {
      var before, last := items[..|items| - 1], items[|items| - 1];
      IndexedExactly(before);
      forall m, n ensures Digits(m) == Digits(n) ==> m == n { DistinctDigits(m, n); }
      OneMorePlace(Indexed(before), before, last, Digits);
      assert items == before + [last];
    }
  }

  function Characters(s: string): seq<Json> { seq(|s|, i requires 0 <= i < |s| => Str([s[i]])) }

  /** What `{ ...entry }` copies. */
  function Spread(entry: Json): Fields
  {
    match entry
    case Obj(fields) => fields
    case Arr(items) => Indexed(items)
    case Str(text) => Indexed(Characters(text))
    case _ => map[]
  }

  datatype Search = Found(at: nat) | NotFound | Throws

  /** `findIndex` by id: reading the id of a null entry throws. */
  function Find(list: seq<Json>, id: Option<Json>): Search
  {
    if list == [] then NotFound
    else if list[0].Null? then Throws
    else if SameId(Id(list[0]), id) then Found(0)
    else
      var r := Find(list[1..], id);
      if r.Found? then Found(r.at + 1) else r
  }

  /** The first i entries are passed over. */
  predicate Passed(list: seq<Json>, id: Option<Json>, i: nat)
  {
    i <= |list| && forall k | 0 <= k < i :: !list[k].Null? && !SameId(Id(list[k]), id)
  }

  /** The first entry that is null or has the id decides. */
  lemma {:induction false} FindIs(list: seq<Json>, id: Option<Json>, i: nat)
    requires Passed(list, id, i) && (i < |list| ==> list[i].Null? || SameId(Id(list[i]), id))
    ensures Find(list, id) == if i == |list| then NotFound else if list[i].Null? then Throws else Found(i)
  {
    if i > 0 {
      assert Passed(list[1..], id, i - 1);
      FindIs(list[1..], id, i - 1);
    }
  }

  lemma {:induction false} FindFacts(list: seq<Json>, id: Option<Json>)
    ensures var r := Find(list, id);
      && (r.Found? ==> r.at < |list| && Passed(list, id, r.at) && !list[r.at].Null? && SameId(Id(list[r.at]), id))
      && (r.NotFound? ==> Passed(list, id, |list|))
  {
    if list != [] {
      FindFacts(list[1..], id);
      assert forall k | 1 <= k < |list| :: list[k] == list[1..][k - 1];
    }
  }

  function WrittenList(list: seq<Json>, agent: Fields): (r: Option<seq<Json>>)
    ensures r.Some? ==> |list| <= |r.value| <= |list| + 1
  {
    FindFacts(list, Id(Obj(agent)));
    match Find(list, Id(Obj(agent)))
    case Found(i) => Some(list[i := Obj(DeepMerge(Spread(list[i]), agent))])
    case NotFound => Some(list + [Obj(agent)])
    case Throws => None
  }

  /** Properties set on an array are not written: such a file stays as it is. */
  predicate Ignored(parsed: Json)
  {
    parsed.Arr? || (parsed.Obj? && "agents" in parsed.fields && parsed.fields["agents"].Arr?)
  }

  /** The agents of the file and their list, as far as they are objects and lists or may be replaced by such. */
  function AgentsOf(parsed: Json): Option<Fields>
  {
    if !parsed.Obj? then None
    else if !Has(parsed.fields, "agents") then Some(map[])
    else if parsed.fields["agents"].Obj? then Some(parsed.fields["agents"].fields)
    else None
  }

  function ListOf(agents: Fields): Option<seq<Json>>
  {
    if !Has(agents, "list") then Some([])
    else if agents["list"].Arr? then Some(agents["list"].items)
    else None
  }

  /** The file after the call, None if it throws.  Setting a property on null or a primitive value throws, and so does
      searching what is not a list. */
  function Written(parsed: Json, agent: Fields): Option<Json>
  {
    if Ignored(parsed) then Some(parsed)
    else if AgentsOf(parsed).None? then None
    else
      var agents := AgentsOf(parsed).value;
      if ListOf(agents).None? then None
      else
        var list := WrittenList(ListOf(agents).value, agent);
        if list.None? then None
        else Some(Obj(parsed.fields["agents" := Obj(agents["list" := Arr(list.value)])]))
  }

  method WriteAgentToConfig(parsed: Json, agent: Fields) returns (r: Option<Json>)
    ensures r == Written(parsed, agent)
  {
    if Ignored(parsed) {
      return Some(parsed);
    }
    if !parsed.Obj? {
      return None;
    }
    var agents: Fields := map[];
    if Has(parsed.fields, "agents") {
      if !parsed.fields["agents"].Obj? {
        return None;
      }
      agents := parsed.fields["agents"].fields;
    }
    var list := [];
    if Has(agents, "list") {
      if !agents["list"].Arr? {
        return None;
      }
      list := agents["list"].items;
    }
    var id := Id(Obj(agent));
    var i := 0;
    while i < |list| && !list[i].Null? && !SameId(Id(list[i]), id)
      invariant Passed(list, id, i)
    {
      i := i + 1;
    }
    FindIs(list, id, i);
    if i < |list| && list[i].Null? {
      return None;
    }
    if i < |list| {
      var merged := MergeDeeply(Spread(list[i]), agent);
      list := list[i := Obj(merged)];
    } else {
      list := list + [Obj(agent)];
    }
    r := Some(Obj(parsed.fields["agents" := Obj(agents["list" := Arr(list)])]));
  }

  /** The search for the agent's entry reads the id of no null entry. */
  predicate SearchEnds(list: seq<Json>, id: Option<Json>)
  {
    forall k | 0 <= k < |list| && list[k].Null? :: exists i :: 0 <= i < k && SameId(Id(list[i]), id)
  }

  lemma {:induction false} FindThrowsExactly(list: seq<Json>, id: Option<Json>)
    ensures Find(list, id).Throws? <==> !SearchEnds(list, id)
  {
    FindFacts(list, id);
    if list != [] && !list[0].Null? {
      FindThrowsExactly(list[1..], id);
      if SameId(Id(list[0]), id) {
        assert SearchEnds(list, id);
      } else {
        SearchOfRest(list, id);
      }
    }
  }

  lemma SearchOfRest(list: seq<Json>, id: Option<Json>)
    requires list != [] && !list[0].Null? && !SameId(Id(list[0]), id)
    ensures SearchEnds(list, id) <==> SearchEnds(list[1..], id)
  {
    var rest := list[1..];
    if SearchEnds(rest, id) {
      forall k | 0 <= k < |list| && list[k].Null? ensures exists i :: 0 <= i < k && SameId(Id(list[i]), id) {
        assert rest[k - 1].Null?;
        var i :| 0 <= i < k - 1 && SameId(Id(rest[i]), id);
        assert SameId(Id(list[i + 1]), id);
      }
    }
    if SearchEnds(list, id) {
      forall k | 0 <= k < |rest| && rest[k].Null? ensures exists i :: 0 <= i < k && SameId(Id(rest[i]), id) {
        assert list[k + 1].Null?;
        var i :| 0 <= i < k + 1 && SameId(Id(list[i]), id);
        assert SameId(Id(rest[i - 1]), id);
      }
    }
  }

  /** `undefined`, null, false, zero or the empty text. */
  predicate Missing(fields: Fields, key: string)
  {
    key !in fields || fields[key] in {Null, Bool(false), Num(0.0), Str("")}
  }

  /** For every JSON value and agent, when the file is left as it is, when it is written and when the call throws. */
  lemma WrittenExactly(parsed: Json, agent: Fields)
    ensures var agents := if parsed.Obj? && "agents" in parsed.fields then parsed.fields["agents"] else Null;
      if parsed.Arr? || agents.Arr? then Written(parsed, agent) == Some(parsed)
      else if !parsed.Obj? then Written(parsed, agent) == None
      else if Missing(parsed.fields, "agents") then
        Written(parsed, agent) == Some(Obj(parsed.fields["agents" := Obj(map["list" := Arr([Obj(agent)])])]))
      else if !agents.Obj? then Written(parsed, agent) == None
      else if Missing(agents.fields, "list") then
        Written(parsed, agent)
          == Some(Obj(parsed.fields["agents" := Obj(agents.fields["list" := Arr([Obj(agent)])])]))
      else
        var list := agents.fields["list"];
        (Written(parsed, agent).Some? <==> list.Arr? && SearchEnds(list.items, Id(Obj(agent))))
  {
    var agents := if parsed.Obj? && "agents" in parsed.fields then parsed.fields["agents"] else Null;
    assert [] + [Obj(agent)] == [Obj(agent)];
    if agents.Obj? && "list" in agents.fields && agents.fields["list"].Arr? {
      FindThrowsExactly(agents.fields["list"].items, Id(Obj(agent)));
    }
  }

  /** Everything else in the file stays: other settings and other fields of `agents`.  The new list is that of
      `EntriesStay`. */
  lemma OthersStay(parsed: Json, agent: Fields)
    requires Written(parsed, agent).Some? && !Ignored(parsed)
    ensures parsed.Obj? && AgentsOf(parsed).Some? && ListOf(AgentsOf(parsed).value).Some?
    ensures WrittenList(ListOf(AgentsOf(parsed).value).value, agent).Some?
    ensures var r, agents := Written(parsed, agent).value, AgentsOf(parsed).value;
      && r.Obj? && r.fields.Keys == parsed.fields.Keys + {"agents"}
      && (forall key | key in parsed.fields && key != "agents" :: r.fields[key] == parsed.fields[key])
      && AgentsOf(r).Some? && AgentsOf(r).value.Keys == agents.Keys + {"list"}
      && (forall key | key in agents && key != "list" :: AgentsOf(r).value[key] == agents[key])
      && !Ignored(r) && ListOf(AgentsOf(r).value) == WrittenList(ListOf(agents).value, agent)
  {
  }

  /** The other entries of the list stay in their places; the first with the agent's id is merged, or the agent is added
      at the end. */
  lemma EntriesStay(list: seq<Json>, agent: Fields)
    requires WrittenList(list, agent).Some?
    ensures var r, id := WrittenList(list, agent).value, Id(Obj(agent));
      && (forall k | 0 <= k < |list| && Find(list, id) != Found(k) :: r[k] == list[k])
      && (Find(list, id).Found? ==>
            |r| == |list| && Find(list, id).at < |list|
            && r[Find(list, id).at] == Obj(DeepMerge(Spread(list[Find(list, id).at]), agent)))
      && (Find(list, id).NotFound? ==> r == list + [Obj(agent)])
  {
    FindFacts(list, Id(Obj(agent)));
  }

  lemma IdAfterMerge(entry: Json, agent: Fields)
    requires SameId(Id(entry), Id(Obj(agent)))
    ensures "id" !in Spread(entry) || entry.Obj? ==> Id(Obj(DeepMerge(Spread(entry), agent))) == Id(Obj(agent))
  {
    MergedKeys(Spread(entry), agent);
    if "id" in Spread(entry) || "id" in agent { MergedField(Spread(entry), agent, "id"); }
  }

  /** Index keys are made of digits. */
  lemma {:induction false} DigitsOnly(n: nat)
    ensures |Digits(n)| > 0 && '0' <= Digits(n)[|Digits(n)| - 1] <= '9'
  {
    if n >= 10 { DigitsOnly(n / 10); }
  }

  lemma {:induction false} NoIdIndex(items: seq<Json>)
    ensures "id" !in Indexed(items)
  {
    if items != [] {
      NoIdIndex(items[..|items| - 1]);
      DigitsOnly(|items| - 1);
      assert "id"[|"id"| - 1] == 'd';
    }
  }

  lemma NoIdSpread(entry: Json)
    ensures "id" in Spread(entry) ==> entry.Obj?
  {
    match entry
    case Arr(items) => NoIdIndex(items);
    case Str(text) => NoIdIndex(Characters(text));
    case _ =>
  }

  lemma WrittenListTwice(list: seq<Json>, agent: Fields)
    requires SameId(Id(Obj(agent)), Id(Obj(agent))) && WrittenList(list, agent).Some?
    ensures WrittenList(WrittenList(list, agent).value, agent) == WrittenList(list, agent)
  {
    var id, once := Id(Obj(agent)), WrittenList(list, agent).value;
    FindFacts(list, id);
    var i := if Find(list, id).Found? then Find(list, id).at else |list|;
    if i < |list| {
      NoIdSpread(list[i]);
      IdAfterMerge(list[i], agent);
      MergeTwice(Obj(Spread(list[i])), Obj(agent));
      assert once[i] == Merge(Obj(Spread(list[i])), Obj(agent));
    } else {
      MergeWithItself(Obj(agent));
    }
    assert Passed(once, id, i) && SameId(Id(once[i]), id);
    FindIs(once, id, i);
    assert once[i].Obj? && Obj(DeepMerge(once[i].fields, agent)) == once[i];
    assert once[i := once[i]] == once;
  }

  lemma WrittenListGrows(list: seq<Json>, agent: Fields)
    requires !SameId(Id(Obj(agent)), Id(Obj(agent))) && WrittenList(list, agent).Some?
    ensures |WrittenList(list, agent).value| == |list| + 1
  {
    FindFacts(list, Id(Obj(agent)));
  }

  /** Writing the same agent twice is writing it once, for every file that can be written, exactly when the file ignores
      agents or the id is not an array or object; a missing id is fine, since it selects the first entry without one. */
  lemma WritingTwice(parsed: Json, agent: Fields)
    requires Written(parsed, agent).Some?
    ensures Written(Written(parsed, agent).value, agent) == Written(parsed, agent)
      <==> Ignored(parsed) || "id" !in agent || (!agent["id"].Arr? && !agent["id"].Obj?)
  {
    if !Ignored(parsed) {
      var once := Written(parsed, agent).value;
      OthersStay(parsed, agent);
      var list := ListOf(AgentsOf(parsed).value).value;
      if SameId(Id(Obj(agent)), Id(Obj(agent))) {
        WrittenListTwice(list, agent);
        var agents := AgentsOf(once).value;
        assert agents["list" := agents["list"]] == agents;
        assert once.fields["agents" := once.fields["agents"]] == once.fields;
      } else if Written(once, agent).Some? {
        OthersStay(once, agent);
        WrittenListGrows(ListOf(AgentsOf(once).value).value, agent);
      }
    }
  }
}
