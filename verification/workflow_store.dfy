/** The bookkeeping of the workflow database client over an abstract
    in-memory store: definitions deduplicated by content hash per workflow,
    the single current definition per workflow, field updates, and the two
    counting folds. SQL sessions, flushing and commits are not modelled. */
module WorkflowStore {
  import opened Wrappers
  import Json

  type Hash = string

  /** `json.dumps(d, sort_keys=True, separators=(",", ":"))` and SHA-256, both
      taken as given functions; the hash is their composition. */
  datatype Hashing = Hashing(canonical: Json.Dict -> string, sha256: string -> Hash)

  function DefinitionHash(h: Hashing, def: Json.Dict): Hash {
    h.sha256(h.canonical(def))
  }

  /** A dict is modelled as a map, which has no key order at all; so the
      order in which keys were inserted cannot even be represented, let alone
      reach the hash. This is a fact about the representation, not a proof
      that `sort_keys=True` canonicalises: `canonical` is a given function. */
  lemma KeyOrderIrrelevant(h: Hashing, d: Json.Dict, a: string, x: Json.Value, b: string, y: Json.Value)
    requires a != b
    ensures DefinitionHash(h, d[a := x][b := y]) == DefinitionHash(h, d[b := y][a := x])
  {
    assert d[a := x][b := y] == d[b := y][a := x];
  }

  datatype Definition = Definition(id: nat, hash: Hash, json: Json.Dict, workflowId: nat, isCurrent: bool)

  datatype Workflow = Workflow(
    id: nat,
    name: string,
    definition: Json.Dict,
    userId: nat,
    organizationId: Option<nat>,
    status: string,
    templateVariables: Option<Json.Dict>,
    configurations: Option<Json.Dict>)

  datatype Store = Store(workflows: seq<Workflow>, definitions: seq<Definition>, nextWorkflowId: nat, nextDefinitionId: nat)

  datatype StoreError = NotFound(workflowId: nat)

  /** The status a new workflow starts with (a column default). */
  const InitialStatus := "active"

  /** No two definitions of one workflow share a hash. */
  predicate NoDuplicatePairs(defs: seq<Definition>) {
    forall i, j :: 0 <= i < j < |defs| ==> (defs[i].hash, defs[i].workflowId) != (defs[j].hash, defs[j].workflowId)
  }

  /** Ids are unique and below the next id to hand out. */
  predicate Valid(s: Store) {
    && (forall i :: 0 <= i < |s.definitions| ==> s.definitions[i].id < s.nextDefinitionId)
    && (forall i :: 0 <= i < |s.definitions| ==> s.definitions[i].workflowId < s.nextWorkflowId)
    && (forall i, j :: 0 <= i < j < |s.definitions| ==> s.definitions[i].id != s.definitions[j].id)
    && (forall i :: 0 <= i < |s.workflows| ==> s.workflows[i].id < s.nextWorkflowId)
    && (forall i, j :: 0 <= i < j < |s.workflows| ==> s.workflows[i].id != s.workflows[j].id)
    && NoDuplicatePairs(s.definitions)
  }

  /** The first definition stored for `(hash, workflowId)`, if any. */
  function FindDefinition(defs: seq<Definition>, hash: Hash, workflowId: nat): (r: Option<nat>)
    ensures r.Some? ==> r.value < |defs| && defs[r.value].hash == hash && defs[r.value].workflowId == workflowId
    ensures r.Some? ==> forall i :: 0 <= i < r.value ==> !(defs[i].hash == hash && defs[i].workflowId == workflowId)
    ensures r.None? ==> forall i :: 0 <= i < |defs| ==> !(defs[i].hash == hash && defs[i].workflowId == workflowId)
  {
    if |defs| == 0 then None
    else if defs[0].hash == hash && defs[0].workflowId == workflowId then Some(0)
    else match FindDefinition(defs[1..], hash, workflowId)
      case None => None
      case Some(i) => Some(i + 1)
  }

  datatype Found = Found(store: Store, definitionId: nat)

  /** `_get_or_create_workflow_definition`: reuse the definition with the same
      hash for this workflow, or add exactly one new one. */
  function GetOrCreate(s: Store, h: Hashing, def: Json.Dict, workflowId: nat): (r: Found)
    ensures var hash := DefinitionHash(h, def);
      FindDefinition(s.definitions, hash, workflowId).Some? ==>
        && r.store == s
        && r.definitionId == s.definitions[FindDefinition(s.definitions, hash, workflowId).value].id
    ensures var hash := DefinitionHash(h, def);
      FindDefinition(s.definitions, hash, workflowId).None? ==>
        && r.store.definitions == s.definitions + [Definition(s.nextDefinitionId, hash, def, workflowId, false)]
        && r.definitionId == s.nextDefinitionId
        && r.store.nextDefinitionId == s.nextDefinitionId + 1
        && r.store.workflows == s.workflows && r.store.nextWorkflowId == s.nextWorkflowId
    ensures Valid(s) && workflowId < s.nextWorkflowId ==> Valid(r.store)
    ensures exists i ::
      (0 <= i < |r.store.definitions| && r.store.definitions[i].id == r.definitionId
       && r.store.definitions[i].hash == DefinitionHash(h, def) && r.store.definitions[i].workflowId == workflowId)
    ensures |s.definitions| <= |r.store.definitions| <= |s.definitions| + 1
    ensures forall i :: 0 <= i < |s.definitions| ==> r.store.definitions[i] == s.definitions[i]
  {
    var hash := DefinitionHash(h, def);
    match FindDefinition(s.definitions, hash, workflowId)
    case Some(i) => Found(s, s.definitions[i].id)
    case None =>
      var d := Definition(s.nextDefinitionId, hash, def, workflowId, false);
      var defs := s.definitions + [d];
      assert defs[|s.definitions|] == d;
      Found(s.(definitions := defs, nextDefinitionId := s.nextDefinitionId + 1), s.nextDefinitionId)
  }

  /** Asking twice for the same definition gives the same id and adds nothing the second time. */
  lemma GetOrCreateIdempotent(s: Store, h: Hashing, def: Json.Dict, workflowId: nat)
    ensures var first := GetOrCreate(s, h, def, workflowId);
      GetOrCreate(first.store, h, def, workflowId) == first
  {
    var hash := DefinitionHash(h, def);
    var first := GetOrCreate(s, h, def, workflowId);
    if FindDefinition(s.definitions, hash, workflowId).None? {
      var j := FindDefinition(first.store.definitions, hash, workflowId);
      assert j == Some(|s.definitions|);
    }
  }

  /** Marking `definitionId` current for `workflowId`: it becomes current and
      every other definition of that workflow is reset; other workflows' definitions are untouched. */
  function MarkCurrent(defs: seq<Definition>, workflowId: nat, definitionId: nat): (r: seq<Definition>)
    ensures |r| == |defs|
    ensures forall i :: 0 <= i < |defs| ==> r[i] == defs[i].(isCurrent := r[i].isCurrent)
    ensures forall i :: 0 <= i < |defs| && defs[i].workflowId == workflowId ==> (r[i].isCurrent <==> defs[i].id == definitionId)
    ensures forall i :: 0 <= i < |defs| && defs[i].workflowId != workflowId ==> r[i] == defs[i]
  {
    seq(|defs|, i requires 0 <= i < |defs| =>
      if defs[i].workflowId == workflowId then defs[i].(isCurrent := defs[i].id == definitionId) else defs[i])
  }

  /** Exactly one definition of `workflowId` is current, and it has `definitionId`. */
  predicate SoleCurrent(defs: seq<Definition>, workflowId: nat, definitionId: nat) {
    && (exists i :: 0 <= i < |defs| && defs[i].workflowId == workflowId && defs[i].id == definitionId && defs[i].isCurrent)
    && (forall i :: 0 <= i < |defs| && defs[i].workflowId == workflowId && defs[i].isCurrent ==> defs[i].id == definitionId)
  }

  /** Get-or-create followed by the current-flag update leaves the chosen
      definition, the one holding `def`'s hash, as the single current one of
      its workflow. Existing definitions keep their place and contents, only
      the current flags of this workflow's definitions may change, and at
      most one definition is added. */
  function Adopt(s: Store, h: Hashing, def: Json.Dict, workflowId: nat): (r: Found)
    ensures SoleCurrent(r.store.definitions, workflowId, r.definitionId)
    ensures Chosen(r.store.definitions, workflowId, DefinitionHash(h, def), r.definitionId)
    ensures |s.definitions| <= |r.store.definitions| <= |s.definitions| + 1
    ensures forall i :: 0 <= i < |s.definitions| ==>
      r.store.definitions[i] == s.definitions[i].(isCurrent := r.store.definitions[i].isCurrent)
    ensures forall i :: 0 <= i < |s.definitions| && s.definitions[i].workflowId != workflowId ==>
      r.store.definitions[i] == s.definitions[i]
    ensures |r.store.definitions| == |s.definitions| + 1 ==>
      r.store.definitions[|s.definitions|] == Definition(s.nextDefinitionId, DefinitionHash(h, def), def, workflowId, true)
    ensures r.store.workflows == s.workflows && r.store.nextWorkflowId == s.nextWorkflowId
    ensures Valid(s) && workflowId < s.nextWorkflowId ==> Valid(r.store)
  {
    var found := GetOrCreate(s, h, def, workflowId);
    var k :| 0 <= k < |found.store.definitions| && found.store.definitions[k].id == found.definitionId
      && found.store.definitions[k].hash == DefinitionHash(h, def) && found.store.definitions[k].workflowId == workflowId;
    var defs := MarkCurrent(found.store.definitions, workflowId, found.definitionId);
    assert defs[k].isCurrent;
    MarkCurrentKeepsValid(found.store, workflowId, found.definitionId);
    Found(found.store.(definitions := defs), found.definitionId)
  }

  /** Changing current flags touches no id, hash or workflow, so validity is kept. */
  lemma MarkCurrentKeepsValid(s: Store, workflowId: nat, definitionId: nat)
    ensures Valid(s) ==> Valid(s.(definitions := MarkCurrent(s.definitions, workflowId, definitionId)))
  {
    var defs := MarkCurrent(s.definitions, workflowId, definitionId);
    assert forall i :: 0 <= i < |defs| ==>
      defs[i].id == s.definitions[i].id && defs[i].hash == s.definitions[i].hash
      && defs[i].workflowId == s.definitions[i].workflowId;
  }

  /** Some definition of `workflowId` has hash `hash` and id `definitionId`,
      and it is that workflow's only current definition. */
  predicate Chosen(defs: seq<Definition>, workflowId: nat, hash: Hash, definitionId: nat) {
    && (exists i :: 0 <= i < |defs| && defs[i].workflowId == workflowId && defs[i].hash == hash && defs[i].id == definitionId)
    && SoleCurrent(defs, workflowId, definitionId)
  }

  /** `create_workflow`: a new workflow whose single current definition holds `def`. */
  function CreateWorkflow(s: Store, h: Hashing, name: string, def: Json.Dict, userId: nat, organizationId: Option<nat>): (r: (Store, Workflow))
    ensures r.1 == Workflow(s.nextWorkflowId, name, def, userId, organizationId, InitialStatus, None, None)
    ensures r.0.workflows == s.workflows + [r.1]
    ensures r.0.nextWorkflowId == s.nextWorkflowId + 1
    ensures exists id :: Chosen(r.0.definitions, r.1.id, DefinitionHash(h, def), id)
    ensures forall i :: 0 <= i < |s.definitions| && s.definitions[i].workflowId != r.1.id ==>
      i < |r.0.definitions| && r.0.definitions[i] == s.definitions[i]
    ensures Valid(s) ==> Valid(r.0)
    ensures Valid(s) ==>
      r.0.definitions == s.definitions + [Definition(s.nextDefinitionId, DefinitionHash(h, def), def, r.1.id, true)]
  {
    var w := Workflow(s.nextWorkflowId, name, def, userId, organizationId, InitialStatus, None, None);
    var added := s.(workflows := s.workflows + [w], nextWorkflowId := s.nextWorkflowId + 1);
    var adopted := Adopt(added, h, def, w.id);
    assert Valid(s) ==> forall i :: 0 <= i < |added.definitions| ==> added.definitions[i].workflowId != w.id;
    if Valid(s) then
      AppendWorkflowKeepsValid(s, w);
      AdoptForNewWorkflow(added, h, def, w.id);
      (adopted.store, w)
    else (adopted.store, w)
  }

  /** Adding a workflow under the next free id keeps the store valid. */
  lemma AppendWorkflowKeepsValid(s: Store, w: Workflow)
    requires Valid(s) && w.id == s.nextWorkflowId
    ensures Valid(s.(workflows := s.workflows + [w], nextWorkflowId := s.nextWorkflowId + 1))
  {
    var ws := s.workflows + [w];
    assert forall i :: 0 <= i < |s.workflows| ==> ws[i] == s.workflows[i];
    assert ws[|s.workflows|] == w;
  }

  /** For a workflow with no definitions yet, adopting appends one new
      definition, already current, and leaves the others as they were. */
  lemma AdoptForNewWorkflow(s: Store, h: Hashing, def: Json.Dict, workflowId: nat)
    requires forall i :: 0 <= i < |s.definitions| ==> s.definitions[i].workflowId != workflowId
    ensures Adopt(s, h, def, workflowId).store.definitions
      == s.definitions + [Definition(s.nextDefinitionId, DefinitionHash(h, def), def, workflowId, true)]
  {
    var hash := DefinitionHash(h, def);
    assert FindDefinition(s.definitions, hash, workflowId).None?;
    var found := GetOrCreate(s, h, def, workflowId);
    var d := Definition(s.nextDefinitionId, hash, def, workflowId, false);
    assert found.store.definitions == s.definitions + [d];
    assert found.definitionId == s.nextDefinitionId;
    var defs := MarkCurrent(found.store.definitions, workflowId, found.definitionId);
    assert Adopt(s, h, def, workflowId).store.definitions == defs;
    var expected := s.definitions + [d.(isCurrent := true)];
    forall i | 0 <= i < |defs|
      ensures defs[i] == expected[i]
    {
      if i < |s.definitions| {
        assert found.store.definitions[i] == s.definitions[i];
      } else {
        assert found.store.definitions[i] == d;
      }
    }
  }

  /** Python truthiness of an optional id. */
  predicate Given(o: Option<nat>) {
    o.Some? && o.value != 0
  }

  /** The lookup of `update_workflow`: by id, narrowed by organisation when one
      is given, otherwise by user when one is given. */
  predicate VisibleTo(w: Workflow, workflowId: nat, userId: Option<nat>, organizationId: Option<nat>) {
    && w.id == workflowId
    && (if Given(organizationId) then w.organizationId == organizationId
        else Given(userId) ==> w.userId == userId.value)
  }

  function FindWorkflow(ws: seq<Workflow>, workflowId: nat, userId: Option<nat>, organizationId: Option<nat>): (r: Option<nat>)
    ensures r.Some? ==> r.value < |ws| && VisibleTo(ws[r.value], workflowId, userId, organizationId)
    ensures r.None? ==> forall i :: 0 <= i < |ws| ==> !VisibleTo(ws[i], workflowId, userId, organizationId)
  {
    if |ws| == 0 then None
    else if VisibleTo(ws[0], workflowId, userId, organizationId) then Some(0)
    else match FindWorkflow(ws[1..], workflowId, userId, organizationId)
      case None => None
      case Some(i) => Some(i + 1)
  }

  /** The workflow record after the field rules of `update_workflow`. */
  function UpdatedFields(w: Workflow, name: string, def: Option<Json.Dict>, templateVariables: Option<Json.Dict>, configurations: Option<Json.Dict>): Workflow {
    w.(name := name,
       templateVariables := if templateVariables.Some? then templateVariables else w.templateVariables,
       configurations := if configurations.Some? then configurations else w.configurations,
       definition := if def.Some? && |def.value| > 0 then def.value else w.definition)
  }

  /** `update_workflow`. A missing or invisible workflow is an error. The name
      is always replaced, variables and configurations only when given, and the
      definition only when it is a non-empty dict, in which case it becomes the
      single current definition. */
  function UpdateWorkflow(s: Store, h: Hashing, workflowId: nat, name: string, def: Option<Json.Dict>,
                          templateVariables: Option<Json.Dict>, configurations: Option<Json.Dict>,
                          userId: Option<nat>, organizationId: Option<nat>): (r: Result<Store, StoreError>)
    ensures r.Err? <==> forall i :: 0 <= i < |s.workflows| ==> !VisibleTo(s.workflows[i], workflowId, userId, organizationId)
    ensures r.Err? ==> r.error == NotFound(workflowId)
    ensures r.Ok? ==> |r.value.workflows| == |s.workflows|
    ensures r.Ok? ==> exists i ::
      (0 <= i < |s.workflows| && VisibleTo(s.workflows[i], workflowId, userId, organizationId)
       && r.value.workflows == s.workflows[i := UpdatedFields(s.workflows[i], name, def, templateVariables, configurations)])
    ensures r.Ok? && !(def.Some? && |def.value| > 0) ==> r.value.definitions == s.definitions
    ensures r.Ok? && def.Some? && |def.value| > 0 ==>
      exists id :: Chosen(r.value.definitions, workflowId, DefinitionHash(h, def.value), id)
    ensures r.Ok? ==> forall i :: 0 <= i < |s.definitions| && s.definitions[i].workflowId != workflowId ==>
      i < |r.value.definitions| && r.value.definitions[i] == s.definitions[i]
    ensures r.Ok? ==> |s.definitions| <= |r.value.definitions| <= |s.definitions| + 1
    ensures r.Ok? ==> forall i :: 0 <= i < |s.definitions| ==>
      r.value.definitions[i] == s.definitions[i].(isCurrent := r.value.definitions[i].isCurrent)
    ensures r.Ok? && |r.value.definitions| == |s.definitions| + 1 ==>
      def.Some? && r.value.definitions[|s.definitions|] == Definition(s.nextDefinitionId, DefinitionHash(h, def.value), def.value, workflowId, true)
    ensures r.Ok? ==> r.value.nextWorkflowId == s.nextWorkflowId
    ensures r.Ok? && Valid(s) ==> Valid(r.value)
  {
    match FindWorkflow(s.workflows, workflowId, userId, organizationId)
    case None => Err(NotFound(workflowId))
    case Some(i) =>
      var w := UpdatedFields(s.workflows[i], name, def, templateVariables, configurations);
      var s1 := s.(workflows := s.workflows[i := w]);
      ReplaceKeepsValid(s, i, w);
      assert Valid(s) ==> workflowId < s1.nextWorkflowId;
      if def.Some? && |def.value| > 0 then
        Ok(Adopt(s1, h, def.value, workflowId).store)
      else Ok(s1)
  }

  /** Replacing a workflow record by one with the same id keeps the store valid. */
  lemma ReplaceKeepsValid(s: Store, i: nat, w: Workflow)
    requires i < |s.workflows| && w.id == s.workflows[i].id
    ensures Valid(s) ==> Valid(s.(workflows := s.workflows[i := w]))
  {
  }

  /** `update_workflow_status`: only the status changes; the lookup is narrowed
      by organisation alone. */
  function UpdateWorkflowStatus(s: Store, workflowId: nat, status: string, organizationId: Option<nat>): (r: Result<Store, StoreError>)
    ensures r.Err? <==> forall i :: 0 <= i < |s.workflows| ==> !VisibleTo(s.workflows[i], workflowId, None, organizationId)
    ensures r.Ok? ==> r.value.definitions == s.definitions && r.value.nextWorkflowId == s.nextWorkflowId
    ensures r.Ok? ==> exists i ::
      (0 <= i < |s.workflows| && VisibleTo(s.workflows[i], workflowId, None, organizationId)
       && r.value.workflows == s.workflows[i := s.workflows[i].(status := status)])
  {
    match FindWorkflow(s.workflows, workflowId, None, organizationId)
    case None => Err(NotFound(workflowId))
    case Some(i) => Ok(s.(workflows := s.workflows[i := s.workflows[i].(status := status)]))
  }

  // ---------------------------------------------------------- counting folds

  /** One result row of a grouped count: a status (or workflow id) and its count. */
  type Row<K> = (K, int)

  /** The sum of the counts of all rows. */
  function SumCounts<K>(rows: seq<Row<K>>): int {
    if |rows| == 0 then 0 else SumCounts(rows[..|rows| - 1]) + rows[|rows| - 1].1
  }

  /** The count of the last row for `key`, if any row has it. */
  function LastCount<K(==)>(rows: seq<Row<K>>, key: K): (r: Option<int>)
    ensures r.None? <==> forall i :: 0 <= i < |rows| ==> rows[i].0 != key
  {
    if |rows| == 0 then None
    else if rows[|rows| - 1].0 == key then Some(rows[|rows| - 1].1)
    else LastCount(rows[..|rows| - 1], key)
  }

  function Keys<K(==)>(rows: seq<Row<K>>): set<K> {
    set i | 0 <= i < |rows| :: rows[i].0
  }

  /** Extending a prefix of the rows by one row. */
  lemma PrefixStep<K>(rows: seq<Row<K>>, i: nat)
    requires i < |rows|
    ensures Keys(rows[..i + 1]) == Keys(rows[..i]) + {rows[i].0}
    ensures SumCounts(rows[..i + 1]) == SumCounts(rows[..i]) + rows[i].1
    ensures forall k :: LastCount(rows[..i + 1], k) == if rows[i].0 == k then Some(rows[i].1) else LastCount(rows[..i], k)
  {
    var longer := rows[..i + 1];
    assert longer[..i] == rows[..i];
    assert longer[i] == rows[i];
    forall k | k in Keys(longer)
      ensures k in Keys(rows[..i]) + {rows[i].0}
    {
      var j :| 0 <= j < |longer| && longer[j].0 == k;
      if j < i {
        assert rows[..i][j] == longer[j];
      }
    }
    forall k | k in Keys(rows[..i])
      ensures k in Keys(longer)
    {
      var j :| 0 <= j < i && rows[..i][j].0 == k;
      assert longer[j] == rows[..i][j];
    }
    assert rows[i].0 == longer[i].0;
    forall k
      ensures LastCount(longer, k) == if rows[i].0 == k then Some(rows[i].1) else LastCount(rows[..i], k)
    {
      assert longer[|longer| - 1] == rows[i];
      assert longer[..|longer| - 1] == rows[..i];
    }
  }

  const CountKeys: set<string> := {"total", "active", "archived"}

  /** `get_workflow_counts`: start from zero for the three fixed keys, let
      each row set its status's count and add it to the total. */
  method WorkflowCounts(rows: seq<Row<string>>) returns (counts: map<string, int>)
    ensures counts.Keys == CountKeys + Keys(rows)
    ensures forall k :: k in counts && k != "total" ==> counts[k] == LastCount(rows, k).GetOr(0)
    ensures (forall i :: 0 <= i < |rows| ==> rows[i].0 != "total") ==> counts["total"] == SumCounts(rows)
  {
    counts := map["total" := 0, "active" := 0, "archived" := 0];
    var i := 0;
    while i < |rows|
      invariant 0 <= i <= |rows|
      invariant counts.Keys == CountKeys + Keys(rows[..i])
      invariant forall k :: k in counts && k != "total" ==> counts[k] == LastCount(rows[..i], k).GetOr(0)
      invariant (forall j :: 0 <= j < i ==> rows[j].0 != "total") ==> counts["total"] == SumCounts(rows[..i])
    {
      var (status, count) := rows[i];
      PrefixStep(rows, i);
      counts := counts[status := count];
      counts := counts["total" := counts["total"] + count];
      i := i + 1;
    }
    assert rows[..i] == rows;
  }

  /** `get_workflow_run_counts`: no ids, no query and an empty result;
      otherwise every requested id starts at 0 and each row sets its count. */
  method WorkflowRunCounts(ids: seq<nat>, rows: seq<Row<nat>>) returns (counts: map<nat, int>)
    ensures |ids| == 0 ==> counts == map[]
    ensures |ids| > 0 ==> counts.Keys == (set i | 0 <= i < |ids| :: ids[i]) + Keys(rows)
    ensures |ids| > 0 ==> forall k :: k in counts ==> counts[k] == LastCount(rows, k).GetOr(0)
  {
    if |ids| == 0 {
      return map[];
    }
    var requested := set i | 0 <= i < |ids| :: ids[i];
    counts := map k | k in requested :: 0;
    var i := 0;
    while i < |rows|
      invariant 0 <= i <= |rows|
      invariant counts.Keys == requested + Keys(rows[..i])
      invariant forall k :: k in counts ==> counts[k] == LastCount(rows[..i], k).GetOr(0)
    {
      var (workflowId, runCount) := rows[i];
      PrefixStep(rows, i);
      counts := counts[workflowId := runCount];
      i := i + 1;
    }
    assert rows[..i] == rows;
  }

  /** When the rows only name requested workflows (the query's `IN` clause),
      the result has exactly the requested ids as keys. */
  lemma RunCountsKeysAreRequested(ids: seq<nat>, rows: seq<Row<nat>>)
    requires |ids| > 0
    requires forall i :: 0 <= i < |rows| ==> rows[i].0 in ids
    ensures (set i | 0 <= i < |ids| :: ids[i]) + Keys(rows) == (set i | 0 <= i < |ids| :: ids[i])
  {
    forall k | k in Keys(rows) ensures k in (set i | 0 <= i < |ids| :: ids[i]) {
      var j :| 0 <= j < |rows| && rows[j].0 == k;
      var m :| 0 <= m < |ids| && ids[m] == k;
    }
  }
}
