/** The request parameters the Sarvam chat service sends: a fixed base
    (model, streaming), optional sampling settings, an optional reasoning
    effort taken from the `extra` setting, optional token limits, and the
    invocation parameters from the context merged last. */
module Sarvam {
  import opened Wrappers
  import opened Json
  import Text

  /** The service settings read by the builder; `Null` stands for `None`.
      `extra` is `None` when the settings hold no such key. */
  datatype Settings = Settings(
    temperature: Value,
    topP: Value,
    extra: Option<Value>,
    maxTokens: Value,
    maxCompletionTokens: Value)

  datatype BuildError =
    /** `"reasoning_effort" in extra` on a value that does not support `in`. */
    | NotIterable
    /** `extra["reasoning_effort"]` on a list or string that contains it. */
    | NotSubscriptable

  /** `"reasoning_effort" in extra` followed by the lookup: a dict by key; a list
      by element and a string by substring, either of which then fails to subscript. */
  function ReasoningEffort(extra: Value): (r: Result<Option<Value>, BuildError>)
    ensures extra.Obj? ==> r == Ok(if "reasoning_effort" in extra.fields then Some(extra.fields["reasoning_effort"]) else None)
  {
    match extra
    case Obj(f) => Ok(if "reasoning_effort" in f then Some(f["reasoning_effort"]) else None)
    case Arr(items) => if Str("reasoning_effort") in items then Err(NotSubscriptable) else Ok(None)
    case Str(s) => if Text.Find(s, "reasoning_effort") != -1 then Err(NotSubscriptable) else Ok(None)
    case _ => Err(NotIterable)
  }

  /** `params[key] = v` when `cond` holds; the dict unchanged otherwise. */
  function PutIf(p: Dict, cond: bool, key: string, v: Value): (q: Dict)
    ensures q.Keys == if cond then p.Keys + {key} else p.Keys
    ensures forall k :: k in p && k != key ==> q[k] == p[k]
    ensures cond ==> q[key] == v
    ensures !cond ==> q == p
  {
    if cond then p[key := v] else p
  }

  /** The entries before the context merge, or the error the `extra` lookup raises. */
  function BaseParams(model: string, s: Settings): (r: Result<Dict, BuildError>)
    ensures (s.extra.None? || s.extra.value.Obj?) ==> r.Ok?
  {
    var effort :- ReasoningEffort(s.extra.GetOr(Obj(map[])));
    var p := map["model" := Str(model), "stream" := Bool(true)];
    var p := PutIf(p, s.temperature != Null, "temperature", s.temperature);
    var p := PutIf(p, s.topP != Null, "top_p", s.topP);
    var p := PutIf(p, effort.Some?, "reasoning_effort", effort.GetOr(Null));
    var p := PutIf(p, Truthy(s.maxTokens), "max_tokens", s.maxTokens);
    var p := PutIf(p, Truthy(s.maxCompletionTokens), "max_completion_tokens", s.maxCompletionTokens);
    Ok(p)
  }

  const BuilderKeys: set<string> :=
    {"model", "stream", "temperature", "top_p", "reasoning_effort", "max_tokens", "max_completion_tokens"}

  /** `build_chat_completion_params`: the base entries, then the context merged
      over them, so that a context entry always wins. Which base entries appear
      is stated by the lemmas below. */
  function BuildParams(model: string, s: Settings, context: Dict): (r: Result<Dict, BuildError>)
    ensures (s.extra.None? || s.extra.value.Obj?) ==> r.Ok?
    ensures r.Ok? ==> forall k :: k in context ==> k in r.value && r.value[k] == context[k]
    ensures r.Ok? ==> r.value.Keys <= BuilderKeys + context.Keys
  {
    var base :- BaseParams(model, s);
    Ok(base + context)
  }

  /** Model and streaming are always set unless the context overrides them. */
  lemma ModelAndStreamSet(model: string, s: Settings, context: Dict)
    requires BuildParams(model, s, context).Ok?
    ensures var r := BuildParams(model, s, context).value;
      && ("model" !in context ==> "model" in r && r["model"] == Str(model))
      && ("stream" !in context ==> "stream" in r && r["stream"] == Bool(true))
  {
    var r := BuildParams(model, s, context).value;
    var base := BaseParams(model, s).value;
    assert r == base + context;
    assert forall k :: k !in context ==> (k in r <==> k in base) && (k in base ==> r[k] == base[k]);
  }

  /** Temperature and top_p are sent exactly when they are not None. */
  lemma SamplingSetIffNotNone(model: string, s: Settings, context: Dict)
    requires BuildParams(model, s, context).Ok?
    ensures var r := BuildParams(model, s, context).value;
      && ("temperature" !in context ==>
            ("temperature" in r <==> s.temperature != Null) && ("temperature" in r ==> r["temperature"] == s.temperature))
      && ("top_p" !in context ==>
            ("top_p" in r <==> s.topP != Null) && ("top_p" in r ==> r["top_p"] == s.topP))
  {
    var r := BuildParams(model, s, context).value;
    var base := BaseParams(model, s).value;
    assert r == base + context;
    assert forall k :: k !in context ==> (k in r <==> k in base) && (k in base ==> r[k] == base[k]);
  }

  /** The token limits are sent exactly when truthy, so 0 and None are left out. */
  lemma LimitsSetIffTruthy(model: string, s: Settings, context: Dict)
    requires BuildParams(model, s, context).Ok?
    ensures var r := BuildParams(model, s, context).value;
      && ("max_tokens" !in context ==>
            ("max_tokens" in r <==> Truthy(s.maxTokens)) && ("max_tokens" in r ==> r["max_tokens"] == s.maxTokens))
      && ("max_completion_tokens" !in context ==>
            ("max_completion_tokens" in r <==> Truthy(s.maxCompletionTokens))
            && ("max_completion_tokens" in r ==> r["max_completion_tokens"] == s.maxCompletionTokens))
  {
    var r := BuildParams(model, s, context).value;
    var base := BaseParams(model, s).value;
    assert r == base + context;
    assert forall k :: k !in context ==> (k in r <==> k in base) && (k in base ==> r[k] == base[k]);
  }

  /** The reasoning effort is copied exactly when `extra` holds it; a missing
      `extra` counts as empty. */
  lemma ReasoningEffortFromExtra(model: string, s: Settings, context: Dict)
    requires "reasoning_effort" !in context
    ensures s.extra.None? ==> "reasoning_effort" !in BuildParams(model, s, context).value
    ensures s.extra.Some? && s.extra.value.Obj? ==>
      var f := s.extra.value.fields;
      && ("reasoning_effort" in BuildParams(model, s, context).value <==> "reasoning_effort" in f)
      && ("reasoning_effort" in f ==> BuildParams(model, s, context).value["reasoning_effort"] == f["reasoning_effort"])
  {
  }

  /** The context merge is the last step: building with a context equals
      building with none and then overlaying the context. */
  lemma ContextMergedLast(model: string, s: Settings, context: Dict)
    requires BuildParams(model, s, map[]).Ok?
    ensures BuildParams(model, s, context) == Ok(BuildParams(model, s, map[]).value + context)
  {
    var base := BaseParams(model, s).value;
    assert base + map[] == base;
  }
}
