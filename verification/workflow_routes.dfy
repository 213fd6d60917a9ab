/** The pure helpers of the workflow routes: trigger-path extraction and
    regeneration over a workflow definition, the schema-error mapping, run
    pagination, the filter-attribute whitelist and the provider base URLs. */
module WorkflowRoutes {
  import opened Wrappers
  import opened Text
  import opened Json

  /** The Python exception a helper would raise on a definition of the wrong shape. */
  datatype Fault =
    /** `for x in v` on a value that is not iterable (TypeError). */
    | NotIterable
    /** `.get` or item assignment on a value that is not a dict. */
    | NotADict
    /** A subscript with a missing key (KeyError). */
    | MissingKey
    /** A list subscript out of range (IndexError). */
    | OutOfRange
    /** A subscript of the wrong type, or hashing an unhashable value (TypeError). */
    | WrongType
    /** `//` with a zero divisor (ZeroDivisionError). */
    | DivisionByZero

  /** `str(uuid.uuid4())`: 36 characters, so always truthy. */
  type Uuid = s: string | |s| == 36
    witness "00000000-0000-0000-0000-000000000000"

  // ---------------------------------------------------------- nodes

  /** `for node in definition.get("nodes", [])`: a list yields its items, an
      empty dict or string yields nothing; a non-empty dict or string yields
      strings, on which the first `.get` fails; anything else is not iterable. */
  function NodeList(def: Dict): (r: Result<seq<Value>, Fault>)
    ensures "nodes" !in def ==> r == Ok([])
    ensures r.Ok? && "nodes" in def && def["nodes"].Arr? ==> r.value == def["nodes"].items
    ensures r.Ok? && !("nodes" in def && def["nodes"].Arr?) ==> r.value == []
  {
    if "nodes" !in def then Ok([])
    else match def["nodes"]
      case Arr(items) => Ok(items)
      case Obj(fields) => if |fields| == 0 then Ok([]) else Err(NotADict)
      case Str(s) => if |s| == 0 then Ok([]) else Err(NotADict)
      case _ => Err(NotIterable)
  }

  predicate IsTrigger(node: Dict) {
    Get(node, "type") == Str("trigger")
  }

  /** `node.get("data", {}).get("trigger_path")`. */
  function TriggerPath(node: Dict): Result<Value, Fault> {
    var data := if "data" in node then node["data"] else Obj(map[]);
    match data
    case Obj(d) => Ok(Get(d, "trigger_path"))
    case _ => Err(NotADict)
  }

  /** The paths one node contributes: its truthy trigger path, if it is a trigger. */
  function NodePaths(node: Value): Result<seq<Value>, Fault> {
    match node
    case Obj(n) =>
      if IsTrigger(n) then
        var p :- TriggerPath(n);
        Ok(if Truthy(p) then [p] else [])
      else Ok([])
    case _ => Err(NotADict)
  }

  /** Sequencing two steps of a loop: the first fault wins, else the outputs concatenate. */
  function Combine<T>(x: Result<seq<T>, Fault>, y: Result<seq<T>, Fault>): Result<seq<T>, Fault> {
    if x.Err? then x else if y.Err? then y else Ok(x.value + y.value)
  }

  lemma CombineAssociative<T>(x: Result<seq<T>, Fault>, y: Result<seq<T>, Fault>, z: Result<seq<T>, Fault>)
    ensures Combine(x, Combine(y, z)) == Combine(Combine(x, y), z)
  {
    if x.Ok? && y.Ok? && z.Ok? {
      assert x.value + (y.value + z.value) == x.value + y.value + z.value;
    }
  }

  /** A node the extraction loop passes without raising: a dict, and, when it
      is a trigger, one whose `data` (if present) is a dict. */
  predicate Extractable(v: Value) {
    v.Obj? && (IsTrigger(v.fields) ==> TriggerPath(v.fields).Ok?)
  }

  /** Node `v` is a trigger whose trigger path is the truthy value `p`. */
  predicate Contributes(v: Value, p: Value) {
    v.Obj? && IsTrigger(v.fields) && TriggerPath(v.fields) == Ok(p) && Truthy(p)
  }

  /** The extraction loop, in node order; the first faulting node raises. */
  function ExtractFrom(nodes: seq<Value>): (r: Result<seq<Value>, Fault>)
    ensures r.Ok? <==> forall i :: 0 <= i < |nodes| ==> Extractable(nodes[i])
    ensures r.Ok? ==> |r.value| <= |nodes|
    ensures r.Ok? ==> forall i :: 0 <= i < |r.value| ==> Truthy(r.value[i])
  {
    if |nodes| == 0 then Ok([])
    else
      assert forall i :: 1 <= i < |nodes| ==> nodes[i] == nodes[1..][i - 1];
      Combine(NodePaths(nodes[0]), ExtractFrom(nodes[1..]))
  }

  /** Every extracted path is the truthy path of some trigger node. */
  lemma {:induction false} ExtractedPathsComeFromTriggers(nodes: seq<Value>)
    requires ExtractFrom(nodes).Ok?
    ensures var r := ExtractFrom(nodes).value;
      forall j :: 0 <= j < |r| ==> exists i :: 0 <= i < |nodes| && Contributes(nodes[i], r[j])
  {
    if |nodes| > 0 {
      var head := NodePaths(nodes[0]).value;
      var tail := ExtractFrom(nodes[1..]).value;
      ExtractedPathsComeFromTriggers(nodes[1..]);
      var r := ExtractFrom(nodes).value;
      assert r == head + tail;
      forall j | 0 <= j < |r|
        ensures exists i :: 0 <= i < |nodes| && Contributes(nodes[i], r[j])
      {
        if j < |head| {
          assert Contributes(nodes[0], r[j]);
        } else {
          assert r[j] == tail[j - |head|];
          var k :| 0 <= k < |nodes[1..]| && Contributes(nodes[1..][k], tail[j - |head|]);
          assert nodes[k + 1] == nodes[1..][k];
        }
      }
    }
  }

  /** Every trigger node's truthy path is extracted. */
  lemma {:induction false} TriggerPathsAreExtracted(nodes: seq<Value>, i: nat, p: Value)
    requires ExtractFrom(nodes).Ok?
    requires i < |nodes| && Contributes(nodes[i], p)
    ensures p in ExtractFrom(nodes).value
  {
    var head := NodePaths(nodes[0]).value;
    var tail := ExtractFrom(nodes[1..]).value;
    var r := ExtractFrom(nodes).value;
    assert r == head + tail;
    if i == 0 {
      assert head == [p];
      assert r[0] == p;
    } else {
      assert nodes[1..][i - 1] == nodes[i];
      TriggerPathsAreExtracted(nodes[1..], i - 1, p);
      var k :| 0 <= k < |tail| && tail[k] == p;
      assert r[|head| + k] == p;
    }
  }

  /** A trigger node with a truthy path contributes exactly that path, at its
      place in node order. */
  lemma TriggerContributesPath(before: seq<Value>, node: Dict, p: Value, after: seq<Value>)
    requires IsTrigger(node) && TriggerPath(node) == Ok(p) && Truthy(p)
    ensures ExtractFrom(before + [Obj(node)] + after)
      == Combine(ExtractFrom(before), Combine(Ok([p]), ExtractFrom(after)))
  {
    ExtractAppend(before + [Obj(node)], after);
    ExtractAppend(before, [Obj(node)]);
    assert ExtractFrom([Obj(node)]) == Ok([p]) by {
      assert [Obj(node)][1..] == [];
      assert [p] + [] == [p];
    }
    CombineAssociative(ExtractFrom(before), Ok([p]), ExtractFrom(after));
  }

  /** A trigger node whose path is falsy contributes nothing, wherever it sits. */
  lemma FalsyPathContributesNothing(before: seq<Value>, node: Dict, after: seq<Value>)
    requires IsTrigger(node) && TriggerPath(node).Ok? && !Truthy(TriggerPath(node).value)
    ensures ExtractFrom(before + [Obj(node)] + after) == ExtractFrom(before + after)
  {
    ExtractAppend(before, [Obj(node)]);
    ExtractAppend(before + [Obj(node)], after);
    ExtractAppend(before, after);
    assert ExtractFrom([Obj(node)]) == Ok([]) by {
      assert [Obj(node)][1..] == [];
    }
    if ExtractFrom(before).Ok? {
      assert ExtractFrom(before).value + [] == ExtractFrom(before).value;
    }
  }

  /** `extract_trigger_paths`: nothing for an empty definition or one without
      `nodes`; for a list of nodes, the paths the extraction loop yields; any
      other non-empty `nodes` value raises or yields nothing. */
  function ExtractTriggerPaths(def: Dict): (r: Result<seq<Value>, Fault>)
    ensures |def| == 0 || "nodes" !in def ==> r == Ok([])
    ensures "nodes" in def && def["nodes"].Arr? ==> r == ExtractFrom(def["nodes"].items)
    ensures "nodes" in def && !def["nodes"].Arr? && r.Ok? ==> r.value == []
    ensures r.Ok? ==> forall i :: 0 <= i < |r.value| ==> Truthy(r.value[i])
  {
    if |def| == 0 then Ok([])
    else
      var nodes :- NodeList(def);
      ExtractFrom(nodes)
  }

  /** Extraction over a concatenation is the concatenation of the extractions,
      and the first fault in either part is the fault of the whole. */
  lemma {:induction false} ExtractAppend(a: seq<Value>, b: seq<Value>)
    ensures ExtractFrom(a + b) == Combine(ExtractFrom(a), ExtractFrom(b))
  {
    if |a| == 0 {
      assert a + b == b;
      assert ExtractFrom(b).Ok? ==> [] + ExtractFrom(b).value == ExtractFrom(b).value;
    } else {
      assert (a + b)[0] == a[0];
      assert (a + b)[1..] == a[1..] + b;
      ExtractAppend(a[1..], b);
      CombineAssociative(NodePaths(a[0]), ExtractFrom(a[1..]), ExtractFrom(b));
    }
  }

  /** A dict node that is not a trigger contributes nothing, wherever it sits. */
  lemma NonTriggerContributesNothing(before: seq<Value>, node: Dict, after: seq<Value>)
    requires !IsTrigger(node)
    ensures ExtractFrom(before + [Obj(node)] + after) == ExtractFrom(before + after)
  {
    ExtractAppend(before, [Obj(node)]);
    ExtractAppend(before + [Obj(node)], after);
    ExtractAppend(before, after);
    assert ExtractFrom([Obj(node)]) == Ok([]) by {
      assert [Obj(node)][1..] == [];
    }
    if ExtractFrom(before).Ok? {
      assert ExtractFrom(before).value + [] == ExtractFrom(before).value;
    }
  }

  // ---------------------------------------------------------- regeneration

  /** One trigger node after regeneration: "data" is created if absent and
      its "trigger_path" set to the new id. */
  function RenewNode(node: Dict, id: Uuid): (r: Result<Dict, Fault>)
    ensures r.Ok? <==> TriggerPath(node).Ok?
    ensures r.Ok? ==> r.value.Keys == node.Keys + {"data"}
    ensures r.Ok? ==> forall k :: k in node && k != "data" ==> r.value[k] == node[k]
    ensures r.Ok? ==> r.value["data"].Obj? && TriggerPath(r.value) == Ok(Str(id))
    ensures r.Ok? && "data" in node ==>
      forall k :: k in node["data"].fields && k != "trigger_path" ==>
        k in r.value["data"].fields && r.value["data"].fields[k] == node["data"].fields[k]
  {
    var data := if "data" in node then node["data"] else Obj(map[]);
    match data
    case Obj(d) => Ok(node["data" := Obj(d["trigger_path" := Str(id)])])
    case _ => Err(NotADict)
  }

  function IsTriggerNode(v: Value): bool {
    v.Obj? && IsTrigger(v.fields)
  }

  /** The number of trigger nodes in `nodes`. */
  function TriggerCount(nodes: seq<Value>): (n: nat)
    ensures n <= |nodes|
  {
    if |nodes| == 0 then 0 else (if IsTriggerNode(nodes[0]) then 1 else 0) + TriggerCount(nodes[1..])
  }

  /** Counting the triggers of a prefix starts with the first node. */
  lemma TriggerCountPrefix(nodes: seq<Value>, i: nat)
    requires 1 <= i <= |nodes|
    ensures TriggerCount(nodes[..i]) == (if IsTriggerNode(nodes[0]) then 1 else 0) + TriggerCount(nodes[1..][..i - 1])
  {
    assert nodes[..i][0] == nodes[0];
    assert nodes[..i][1..] == nodes[1..][..i - 1];
  }

  /** One node of the regeneration loop: a trigger is renewed with `id`, any
      other dict is kept, and a node that is not a dict faults on `.get`. */
  function RenewStep(node: Value, id: Uuid): (r: Result<seq<Value>, Fault>)
    ensures r.Ok? <==> NodePaths(node).Ok?
    ensures r.Ok? ==> |r.value| == 1 && IsTriggerNode(r.value[0]) == IsTriggerNode(node)
    ensures r.Ok? && !IsTriggerNode(node) ==> r.value == [node]
    ensures r.Ok? ==> NodePaths(r.value[0]) == Ok(if IsTriggerNode(node) then [Str(id)] else [])
  {
    match node
    case Obj(n) =>
      if IsTrigger(n) then
        var renewed :- RenewNode(n, id);
        assert Get(renewed, "type") == Get(n, "type");
        Ok([Obj(renewed)])
      else Ok([node])
    case _ => Err(NotADict)
  }

  /** The regeneration loop: the `k`-th trigger met (counting from `next`)
      receives `newId(k)`; every other node is kept as it is. */
  function RegenerateFrom(nodes: seq<Value>, newId: nat -> Uuid, next: nat): (r: Result<seq<Value>, Fault>)
    ensures r.Ok? ==> |r.value| == |nodes|
    ensures r.Ok? ==> forall i :: 0 <= i < |nodes| && !IsTriggerNode(nodes[i]) ==> r.value[i] == nodes[i]
    ensures r.Ok? ==> forall i :: 0 <= i < |nodes| ==> IsTriggerNode(r.value[i]) == IsTriggerNode(nodes[i])
  {
    if |nodes| == 0 then Ok([])
    else
      var bump := if IsTriggerNode(nodes[0]) then 1 else 0;
      var step := RenewStep(nodes[0], newId(next));
      var rest := RegenerateFrom(nodes[1..], newId, next + bump);
      var r := Combine(step, rest);
      assert r.Ok? ==> forall i :: 1 <= i < |nodes| ==> r.value[i] == rest.value[i - 1] && nodes[i] == nodes[1..][i - 1] by {
        if r.Ok? {
          assert r.value == step.value + rest.value;
          forall i | 1 <= i < |nodes|
            ensures r.value[i] == rest.value[i - 1] && nodes[i] == nodes[1..][i - 1]
          {
          }
        }
      }
      r
  }

  /** One unfolding of the regeneration loop: the first node's step, then
      the loop over the rest with the id counter advanced past a trigger. */
  lemma RegenerateFromCons(nodes: seq<Value>, newId: nat -> Uuid, next: nat, out: seq<Value>)
    returns (bump: nat, step: seq<Value>, rest: seq<Value>)
    requires |nodes| > 0 && RegenerateFrom(nodes, newId, next) == Ok(out)
    ensures bump == if IsTriggerNode(nodes[0]) then 1 else 0
    ensures RenewStep(nodes[0], newId(next)) == Ok(step) && |step| == 1
    ensures RegenerateFrom(nodes[1..], newId, next + bump) == Ok(rest)
    ensures out == step + rest
  {
    if IsTriggerNode(nodes[0]) {
      bump := 1;
    } else {
      bump := 0;
    }
    step := RenewStep(nodes[0], newId(next)).value;
    rest := RegenerateFrom(nodes[1..], newId, next + bump).value;
  }

  /** `out` is trigger node `node` renewed with `id`. */
  predicate RenewedAs(node: Value, id: Uuid, out: Value) {
    node.Obj? && out.Obj? && RenewNode(node.fields, id) == Ok(out.fields)
  }

  /** The `k`-th trigger node (counting from 0) is renewed with `newId(next + k)`:
      its other keys and data entries are kept and its path is that id. */
  lemma RegenerateRenewsTriggers(nodes: seq<Value>, newId: nat -> Uuid, next: nat, out: seq<Value>, i: nat)
    requires RegenerateFrom(nodes, newId, next) == Ok(out)
    requires i < |nodes| && IsTriggerNode(nodes[i])
    ensures i < |out| && RenewedAs(nodes[i], newId(next + TriggerCount(nodes[..i])), out[i])
  {
    RenewsTriggerWith(nodes, newId, next, out, i, next + TriggerCount(nodes[..i]));
  }

  /** The same, with the id index `k` given. */
  lemma {:induction false} RenewsTriggerWith(nodes: seq<Value>, newId: nat -> Uuid, next: nat, out: seq<Value>, i: nat, k: nat)
    requires RegenerateFrom(nodes, newId, next) == Ok(out)
    requires i < |nodes| && IsTriggerNode(nodes[i])
    requires k == next + TriggerCount(nodes[..i])
    ensures i < |out| && RenewedAs(nodes[i], newId(k), out[i])
    decreases i
  {
    var bump, step, rest := RegenerateFromCons(nodes, newId, next, out);
    if i == 0 {
      assert nodes[..0] == [];
      assert out[0] == step[0];
    } else {
      var sub := nodes[1..];
      assert sub[i - 1] == nodes[i];
      TriggerCountPrefix(nodes, i);
      RenewsTriggerWith(sub, newId, next + bump, rest, i - 1, k);
      ConcatAfterSingle(step, rest, i);
    }
  }

  lemma ConcatAfterSingle<T>(a: seq<T>, b: seq<T>, i: nat)
    requires |a| == 1 && 1 <= i < 1 + |b|
    ensures (a + b)[i] == b[i - 1]
  {
  }

  /** `regenerate_trigger_uuids`. The source deep-copies its argument; here
      the input is an immutable value, so it is untouched by construction. */
  function RegenerateTriggerUuids(def: Dict, newId: nat -> Uuid): (r: Result<Dict, Fault>)
    ensures |def| == 0 ==> r == Ok(def)
    ensures "nodes" !in def ==> r == Ok(def)
    ensures r.Ok? ==> r.value.Keys == def.Keys
    ensures r.Ok? ==> forall k :: k in def && k != "nodes" ==> r.value[k] == def[k]
  {
    if |def| == 0 || "nodes" !in def then Ok(def)
    else match def["nodes"]
      case Arr(items) =>
        var renewed :- RegenerateFrom(items, newId, 0);
        Ok(def["nodes" := Arr(renewed)])
      case _ =>
        var _ :- NodeList(def);
        Ok(def)
  }

  /** The ids handed out, in order, to `count` triggers starting at `next`. */
  function FreshPaths(newId: nat -> Uuid, next: nat, count: nat): (r: seq<Value>)
    ensures |r| == count
    ensures forall i :: 0 <= i < count ==> r[i] == Str(newId(next + i))
  {
    seq(count, (i: int) requires 0 <= i => Str(newId(next + i)))
  }

  lemma FreshPathsCons(newId: nat -> Uuid, next: nat, count: nat)
    requires count > 0
    ensures FreshPaths(newId, next, count) == [Str(newId(next))] + FreshPaths(newId, next + 1, count - 1)
  {
  }

  /** Regeneration faults exactly where extraction does, and extracting
      after regenerating yields the newId ids, one per trigger, in node order. */
  lemma {:induction false} RegenerateThenExtractFrom(nodes: seq<Value>, newId: nat -> Uuid, next: nat)
    ensures RegenerateFrom(nodes, newId, next).Ok? <==> ExtractFrom(nodes).Ok?
    ensures RegenerateFrom(nodes, newId, next).Ok? ==>
      ExtractFrom(RegenerateFrom(nodes, newId, next).value) == Ok(FreshPaths(newId, next, TriggerCount(nodes)))
    decreases |nodes|
  {
    if |nodes| > 0 {
      var bump := if IsTriggerNode(nodes[0]) then 1 else 0;
      var step := RenewStep(nodes[0], newId(next));
      var rest := RegenerateFrom(nodes[1..], newId, next + bump);
      RegenerateThenExtractFrom(nodes[1..], newId, next + bump);
      if step.Ok? && rest.Ok? {
        ExtractAppend(step.value, rest.value);
        assert step.value[1..] == [];
        var here := NodePaths(step.value[0]).value;
        assert ExtractFrom(step.value) == Combine(NodePaths(step.value[0]), Ok([]));
        assert here + [] == here;
        assert RegenerateFrom(nodes, newId, next).value == step.value + rest.value;
        if bump == 1 {
          FreshPathsCons(newId, next, TriggerCount(nodes));
        } else {
          var tail := FreshPaths(newId, next, TriggerCount(nodes[1..]));
          assert here == [] && here + tail == tail;
        }
      }
    }
  }

  /** The same two facts for whole definitions. */
  lemma RegenerateThenExtract(def: Dict, newId: nat -> Uuid)
    requires |def| > 0 && ExtractTriggerPaths(def).Ok?
    ensures RegenerateTriggerUuids(def, newId).Ok?
    ensures var nodes := NodeList(def).value;
      ExtractTriggerPaths(RegenerateTriggerUuids(def, newId).value) == Ok(FreshPaths(newId, 0, TriggerCount(nodes)))
  {
    var nodes := NodeList(def).value;
    RegenerateThenExtractFrom(nodes, newId, 0);
    if "nodes" in def && def["nodes"].Arr? {
      var out := RegenerateTriggerUuids(def, newId).value;
      assert NodeList(out) == Ok(RegenerateFrom(nodes, newId, 0).value);
    }
  }

  // ---------------------------------------------------------- schema errors

  /** One step of a validation error's location: a field name or a list index. */
  datatype LocPart = Key(name: string) | Index(index: int)

  /** A validation error as the schema validator reports it. */
  datatype SchemaIssue = SchemaIssue(loc: seq<LocPart>, msg: string)

  datatype ItemKind = NodeItem | EdgeItem

  datatype WorkflowError = WorkflowError(kind: ItemKind, id: Value, field: Option<string>, message: string)

  /** `v[p]` in Python: a dict by key, a list or string by (possibly negative) index. */
  function Subscript(v: Value, p: LocPart): (r: Result<Value, Fault>)
    ensures v.Arr? && p.Index? && 0 <= p.index < |v.items| ==> r == Ok(v.items[p.index])
    ensures v.Arr? && p.Index? && -|v.items| <= p.index < 0 ==> r == Ok(v.items[|v.items| + p.index])
    ensures v.Obj? && p.Key? ==> (r.Ok? <==> p.name in v.fields)
  {
    match v
    case Obj(f) =>
      if p.Key? && p.name in f then Ok(f[p.name]) else Err(MissingKey)
    case Arr(items) =>
      if p.Key? then Err(WrongType)
      else if 0 <= p.index < |items| then Ok(items[p.index])
      else if -|items| <= p.index < 0 then Ok(items[|items| + p.index])
      else Err(OutOfRange)
    case Str(text) =>
      if p.Key? then Err(WrongType)
      else if 0 <= p.index < |text| then Ok(Str([text[p.index]]))
      else if -|text| <= p.index < 0 then Ok(Str([text[|text| + p.index]]))
      else Err(OutOfRange)
    case _ => Err(WrongType)
  }

  /** `str(p)` for one location step. */
  function LocText(p: LocPart): string {
    match p
    case Key(name) => name
    case Index(i) => IntToString(i)
  }

  function LocTexts(parts: seq<LocPart>): (r: seq<string>)
    ensures |r| == |parts| && forall i :: 0 <= i < |parts| ==> r[i] == LocText(parts[i])
  {
    seq(|parts|, i requires 0 <= i < |parts| => LocText(parts[i]))
  }

  /** `".".join(str(p) for p in loc[2:]) or None`. */
  function FieldOf(loc: seq<LocPart>): Option<string>
    requires |loc| >= 2
  {
    var joined := Join(LocTexts(loc[2..]), ".");
    if joined == "" then None else Some(joined)
  }

  /** The entry `_transform_schema_errors` builds for one validation error:
      the `id` of the item the location points at, the kind, field and message. */
  function TransformIssue(issue: SchemaIssue, def: Dict): (r: Result<WorkflowError, Fault>)
    ensures r.Ok? ==> |issue.loc| >= 2
    ensures r.Ok? ==> issue.loc[0].Key? && issue.loc[0].name in def
    ensures r.Ok? ==>
      var item := Subscript(def[issue.loc[0].name], issue.loc[1]);
      item.Ok? && item.value.Obj? && "id" in item.value.fields && r.value.id == item.value.fields["id"]
    ensures r.Ok? ==> (r.value.kind == NodeItem <==> issue.loc[0] == Key("nodes"))
    ensures r.Ok? ==> r.value.field == FieldOf(issue.loc)
    ensures r.Ok? ==> r.value.message == Capitalize(issue.msg)
    ensures |issue.loc| == 0 ==> r == Err(OutOfRange)
    ensures |issue.loc| == 1 ==>
      r == Err(if issue.loc[0].Key? && issue.loc[0].name in def then OutOfRange else MissingKey)
  {
    var loc := issue.loc;
    if |loc| == 0 then Err(OutOfRange)
    else
      var collection :- Subscript(Obj(def), loc[0]);
      if |loc| == 1 then Err(OutOfRange)
      else
      var item :- Subscript(collection, loc[1]);
      var id :- Subscript(item, Key("id"));
      var kind := if loc[0] == Key("nodes") then NodeItem else EdgeItem;
      Ok(WorkflowError(kind, id, FieldOf(loc), Capitalize(issue.msg)))
  }

  /** Mapping a faulting step over a list in order: the first fault raises. */
  function MapAll<A, B>(f: A -> Result<B, Fault>, xs: seq<A>): (r: Result<seq<B>, Fault>)
    ensures r.Ok? <==> forall i :: 0 <= i < |xs| ==> f(xs[i]).Ok?
    ensures r.Ok? ==> |r.value| == |xs|
    ensures r.Ok? ==> forall i :: 0 <= i < |xs| ==> r.value[i] == f(xs[i]).value
  {
    if |xs| == 0 then Ok([])
    else
      var head := f(xs[0]);
      var tail := MapAll(f, xs[1..]);
      assert forall i :: 1 <= i < |xs| ==> xs[i] == xs[1..][i - 1];
      if head.Err? then Err(head.error)
      else if tail.Err? then Err(tail.error)
      else
        var all := [head.value] + tail.value;
        assert forall i :: 1 <= i < |xs| ==> all[i] == tail.value[i - 1];
        Ok(all)
  }

  /** `_transform_schema_errors`: one entry per validation error, in order;
      the first error whose location does not resolve raises. */
  function TransformSchemaErrors(issues: seq<SchemaIssue>, def: Dict): (r: Result<seq<WorkflowError>, Fault>)
    ensures r.Ok? <==> forall i :: 0 <= i < |issues| ==> TransformIssue(issues[i], def).Ok?
    ensures r.Ok? ==> |r.value| == |issues|
    ensures r.Ok? ==> forall i :: 0 <= i < |issues| ==> r.value[i] == TransformIssue(issues[i], def).value
  {
    MapAll(issue => TransformIssue(issue, def), issues)
  }

  /** The field is absent exactly when the location stops at the item, or
      continues with a single empty name. */
  lemma FieldAbsentIff(loc: seq<LocPart>)
    requires |loc| >= 2
    ensures FieldOf(loc).None? <==> |loc| == 2 || (|loc| == 3 && loc[2] == Key(""))
  {
    var parts := LocTexts(loc[2..]);
    if |loc| > 3 {
      assert |Join(parts, ".")| >= 1;
    } else if |loc| == 3 && loc[2].Index? {
      assert |IntToString(loc[2].index)| > 0;
    }
  }

  /** A node error names the `id` of the node at that list position, counting
      from the end for a negative index, as Python does. */
  lemma NodeErrorNamesNode(def: Dict, i: int, rest: seq<LocPart>, msg: string)
    requires "nodes" in def && def["nodes"].Arr?
    requires var items := def["nodes"].items; -|items| <= i < |items|
    requires var items := def["nodes"].items;
      var node := items[if i < 0 then |items| + i else i];
      node.Obj? && "id" in node.fields
    ensures var items := def["nodes"].items;
      var node := items[if i < 0 then |items| + i else i];
      TransformIssue(SchemaIssue([Key("nodes"), Index(i)] + rest, msg), def)
        == Ok(WorkflowError(NodeItem, node.fields["id"], FieldOf([Key("nodes"), Index(i)] + rest), Capitalize(msg)))
  {
    var loc := [Key("nodes"), Index(i)] + rest;
    assert loc[0] == Key("nodes") && loc[1] == Index(i);
  }

  // ---------------------------------------------------------- pagination

  /** Python's `a // b`: rounds toward negative infinity for either sign of `b`. */
  function FloorDiv(a: int, b: int): (q: int)
    requires b != 0
    ensures b > 0 ==> q * b <= a < q * b + b
    ensures b < 0 ==> q * b >= a > q * b + b
  {
    if b > 0 then a / b else (-a) / (-b)
  }

  datatype Window = Window(offset: int, totalPages: int)

  /** The arithmetic of `get_workflow_runs`: the row offset of `page`, and the
      page count `(total_count + limit - 1) // limit`, which raises for `limit == 0`. */
  function Paginate(page: int, limit: int, totalCount: nat): (r: Result<Window, Fault>)
    ensures limit == 0 <==> r == Err(DivisionByZero)
    ensures r.Ok? ==> r.value.offset == (page - 1) * limit
    ensures limit > 0 ==> r.Ok? && (r.value.totalPages - 1) * limit < totalCount <= r.value.totalPages * limit
    ensures limit > 0 ==> r.Ok? && r.value.totalPages >= 0
  {
    if limit == 0 then Err(DivisionByZero)
    else Ok(Window((page - 1) * limit, FloorDiv(totalCount + limit - 1, limit)))
  }

  /** With a positive limit, every row lies on exactly one page, and that page
      is among the first `totalPages`. */
  lemma PagesPartitionRows(limit: int, totalCount: nat, row: nat)
    requires limit > 0 && row < totalCount
    ensures var p := row / limit + 1;
      && 1 <= p <= Paginate(p, limit, totalCount).value.totalPages
      && Paginate(p, limit, totalCount).value.offset <= row < Paginate(p, limit, totalCount).value.offset + limit
    ensures forall q ::
      (Paginate(q, limit, totalCount).value.offset <= row < Paginate(q, limit, totalCount).value.offset + limit
       ==> q == row / limit + 1)
  {
    var p := row / limit + 1;
    var pages := Paginate(p, limit, totalCount).value.totalPages;
    assert (p - 1) * limit <= row < (p - 1) * limit + limit by {
      assert row == limit * (row / limit) + row % limit;
    }
    if pages < p {
      MulMonotone(pages, p - 1, limit);
    }
    forall q | Paginate(q, limit, totalCount).value.offset <= row < Paginate(q, limit, totalCount).value.offset + limit
      ensures q == p
    {
      if q < p {
        MulMonotone(q, p - 1, limit);
      } else if q > p {
        MulMonotone(p, q - 1, limit);
      }
    }
  }

  lemma MulMonotone(a: int, b: int, c: int)
    requires a <= b && c > 0
    ensures a * c <= b * c && (a - 1) * c + c == a * c
  {
  }

  // ---------------------------------------------------------- filters

  const AllowedAttributes: set<string> := {"dateRange", "dispositionCode", "duration", "status", "tokenUsage"}

  datatype FilterError =
    /** The 403 response, naming the attribute. */
    | Forbidden(attribute: Value)
    /** An exception the route does not catch. */
    | Crash(fault: Fault)

  /** An item the whitelist lets through: a dict whose attribute is falsy or allowed. */
  predicate Permitted(item: Value) {
    item.Obj? && (var a := Get(item.fields, "attribute"); !Truthy(a) || (a.Str? && a.s in AllowedAttributes))
  }

  /** The check for one filter item. A truthy list or dict attribute cannot be
      looked up in a set (TypeError); any other truthy attribute outside the
      whitelist is forbidden. */
  function CheckFilterItem(item: Value): (r: Result<(), FilterError>)
    ensures r.Ok? <==> Permitted(item)
    ensures r.Err? && r.error.Forbidden? ==> Truthy(r.error.attribute) && !r.error.attribute.Arr? && !r.error.attribute.Obj?
  {
    match item
    case Obj(f) =>
      var a := Get(f, "attribute");
      if !Truthy(a) then Ok(())
      else if a.Arr? || a.Obj? then Err(Crash(WrongType))
      else if a.Str? && a.s in AllowedAttributes then Ok(())
      else Err(Forbidden(a))
    case _ => Err(Crash(NotADict))
  }

  function CheckFilterItems(items: seq<Value>): (r: Result<(), FilterError>)
    ensures r.Ok? <==> forall i :: 0 <= i < |items| ==> Permitted(items[i])
    ensures r.Err? ==> exists i ::
      (0 <= i < |items| && r == CheckFilterItem(items[i]) && forall j :: 0 <= j < i ==> Permitted(items[j]))
  {
    if |items| == 0 then Ok(())
    else
      var _ :- CheckFilterItem(items[0]);
      var r := CheckFilterItems(items[1..]);
      assert forall i :: 1 <= i < |items| ==> items[i] == items[1..][i - 1];
      if r.Err? then
        var k :| 0 <= k < |items[1..]| && r == CheckFilterItem(items[1..][k])
          && forall j :: 0 <= j < k ==> Permitted(items[1..][j]);
        assert r == CheckFilterItem(items[k + 1]);
        r
      else r
  }

  /** The whitelist loop of `get_workflow_runs` over the parsed filter criteria. */
  function CheckFilters(criteria: Value): (r: Result<(), FilterError>)
    ensures criteria.Arr? ==> (r.Ok? <==> forall i :: 0 <= i < |criteria.items| ==> Permitted(criteria.items[i]))
    ensures criteria.Null? || criteria.Bool? || criteria.Num? ==> r == Err(Crash(NotIterable))
  {
    match criteria
    case Arr(items) => CheckFilterItems(items)
    case Obj(f) => if |f| == 0 then Ok(()) else Err(Crash(NotADict))
    case Str(text) => if |text| == 0 then Ok(()) else Err(Crash(NotADict))
    case _ => Err(Crash(NotIterable))
  }

  /** Filters on whitelisted attributes, or on none, pass; a string attribute
      outside the whitelist is the one the 403 names. */
  lemma WhitelistDecides(before: seq<Value>, f: Dict, after: seq<Value>)
    requires forall i :: 0 <= i < |before| ==> Permitted(before[i])
    requires "attribute" in f && f["attribute"].Str? && |f["attribute"].s| > 0
    requires f["attribute"].s !in AllowedAttributes
    ensures CheckFilters(Arr(before + [Obj(f)] + after)) == Err(Forbidden(f["attribute"]))
  {
    var items := before + [Obj(f)] + after;
    var r := CheckFilterItems(items);
    assert items[|before|] == Obj(f);
    assert !Permitted(items[|before|]);
    assert forall j :: 0 <= j < |before| ==> items[j] == before[j];
    var k :| 0 <= k < |items| && r == CheckFilterItem(items[k]) && forall j :: 0 <= j < k ==> Permitted(items[j]);
  }

  // ---------------------------------------------------------- providers

  /** The OpenAI-compatible base URL for local workflow generation. */
  function ProviderBaseUrl(provider: string): (r: Option<string>)
    ensures r.Some? <==> provider in {"openai", "groq", "openrouter", "deepseek"}
    ensures r.Some? ==> StartsWith(r.value, "https://") && |r.value| > 8
  {
    if provider == "openai" then Some("https://api.openai.com/v1")
    else if provider == "groq" then Some("https://api.groq.com/openai/v1")
    else if provider == "openrouter" then Some("https://openrouter.ai/api/v1")
    else if provider == "deepseek" then Some("https://api.deepseek.com/v1")
    else None
  }

  /** No two providers share a base URL. */
  lemma ProviderUrlsDistinct(a: string, b: string)
    requires ProviderBaseUrl(a).Some? && ProviderBaseUrl(b).Some?
    ensures ProviderBaseUrl(a) == ProviderBaseUrl(b) ==> a == b
  {
  }
}
