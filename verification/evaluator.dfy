/**
 * Evaluation of one event definition against an equipment actor's
 * properties: a trigger expression decides whether the event fires, and when
 * it does, ordered payload-field expressions and verbatim property copies
 * build the payload. The expression language itself is a parameter.
 */
module EventEvaluator {
  import opened Wrappers
  import opened Domain
  import opened ManagedEquipment

  /** The four results of an evaluation: fired, the definition, the payload, the error. */
  datatype Evaluation = Evaluation(
    fired: bool,
    definition: Option<EventDefinition>,
    payload: Option<map<string, Value>>,
    err: Option<Error>)

  /** The variables an expression sees: every property value, overlaid by the caller's context. */
  function EvalEnvironment(props: map<string, PropertyDescriptor>, context: Option<Environment>): (env: Environment)
    ensures forall k :: k in env <==> k in props || (context.Some? && k in context.value)
    ensures forall k | context.Some? && k in context.value :: env[k] == context.value[k]
    ensures forall k | k in props && !(context.Some? && k in context.value) :: env[k] == props[k].value
  {
    var values := map k | k in props :: props[k].value;
    if context.Some? then values + context.value else values
  }

  /** The position of the first payload field whose expression fails, or the number of fields. */
  function FailIndex(fields: seq<PayloadField>, env: Environment, eval: Evaluator): (n: nat)
    ensures n <= |fields|
    ensures forall i | 0 <= i < n :: eval(fields[i].expression, env).Yields?
    ensures n < |fields| ==> eval(fields[n].expression, env).Failed?
  {
    if |fields| == 0 then 0
    else if eval(fields[0].expression, env).Failed? then 0
    else 1 + FailIndex(fields[1..], env, eval)
  }

  /** No later field has the same name as field `i`. */
  predicate LastNamed(fields: seq<PayloadField>, i: nat)
    requires i < |fields|
  {
    forall j | i < j < |fields| :: fields[j].name != fields[i].name
  }

  function FieldNames(fields: seq<PayloadField>): set<string>
  {
    set f | f in fields :: f.name
  }

  /** The payload of fields that all evaluate: each name maps to the value of the last field with that name. */
  function FieldPayload(fields: seq<PayloadField>, env: Environment, eval: Evaluator): (m: map<string, Value>)
    requires forall i | 0 <= i < |fields| :: eval(fields[i].expression, env).Yields?
    ensures m.Keys == FieldNames(fields)
    ensures forall i | 0 <= i < |fields| && LastNamed(fields, i) ::
              m[fields[i].name] == eval(fields[i].expression, env).value
  {
    if |fields| == 0 then map[]
    else
      var n := |fields| - 1;
      var m := FieldPayload(fields[..n], env, eval);
      FieldPayloadExtend(fields, env, eval, m);
      m[fields[n].name := eval(fields[n].expression, env).value]
  }

  /** Storing the last field's value into the payload of the others yields the payload of all fields. */
  lemma FieldPayloadExtend(fields: seq<PayloadField>, env: Environment, eval: Evaluator, m: map<string, Value>)
    requires |fields| > 0
    requires forall i | 0 <= i < |fields| :: eval(fields[i].expression, env).Yields?
    requires var init := fields[..|fields| - 1];
             && m.Keys == FieldNames(init)
             && forall i | 0 <= i < |init| && LastNamed(init, i) :: m[init[i].name] == eval(init[i].expression, env).value
    ensures var n := |fields| - 1;
            var m' := m[fields[n].name := eval(fields[n].expression, env).value];
            && m'.Keys == FieldNames(fields)
            && forall i | 0 <= i < |fields| && LastNamed(fields, i) ::
                 m'[fields[i].name] == eval(fields[i].expression, env).value
  {
    var n := |fields| - 1;
    var init := fields[..n];
    assert fields == init + [fields[n]];
    assert FieldNames(fields) == FieldNames(init) + {fields[n].name};
    forall i | 0 <= i < n && LastNamed(fields, i)
      ensures LastNamed(init, i) && init[i].name != fields[n].name
    {
      assert init[i] == fields[i];
    }
  }

  /** The payload built from fields, and the error of the field that stopped it. */
  datatype FieldsOutcome = FieldsOutcome(payload: map<string, Value>, err: Option<Error>)

  /** Reference: the fields before the first failing one, and that field's error. */
  function FieldsResult(fields: seq<PayloadField>, env: Environment, eval: Evaluator): (r: FieldsOutcome)
    ensures r.err.None? <==> forall i | 0 <= i < |fields| :: eval(fields[i].expression, env).Yields?
  {
    var n := FailIndex(fields, env, eval);
    FieldsOutcome(FieldPayload(fields[..n], env, eval),
                  if n < |fields| then Some(eval(fields[n].expression, env).error) else None)
  }

  /** The first failing field is the first field whose expression fails. */
  lemma FailIndexAt(fields: seq<PayloadField>, env: Environment, eval: Evaluator, i: nat)
    requires i <= |fields|
    requires forall j | 0 <= j < i :: eval(fields[j].expression, env).Yields?
    requires i < |fields| ==> eval(fields[i].expression, env).Failed?
    ensures FailIndex(fields, env, eval) == i
  {

  }

  /** The payload of one more field is the previous payload with that field's value stored. */
  lemma FieldPayloadSnoc(fields: seq<PayloadField>, env: Environment, eval: Evaluator, i: nat)
    requires i < |fields|
    requires forall j | 0 <= j <= i :: eval(fields[j].expression, env).Yields?
    ensures FieldPayload(fields[..i + 1], env, eval)
            == FieldPayload(fields[..i], env, eval)[fields[i].name := eval(fields[i].expression, env).value]
  {
    var next := fields[..i + 1];
    assert next[..i] == fields[..i];
    assert next[i] == fields[i];
  }

  /**
   * The payload-field loop: evaluate each field in declared order, store its
   * value under its name, and stop at the first field that fails.
   */
  method EvaluatePayloadFields(fields: seq<PayloadField>, env: Environment, eval: Evaluator)
    returns (payload: map<string, Value>, err: Option<Error>)
    ensures FieldsOutcome(payload, err) == FieldsResult(fields, env, eval)
  {
    payload := map[];
    err := None;
    var i := 0;
    while i < |fields|
      invariant 0 <= i <= |fields|
      invariant forall j | 0 <= j < i :: eval(fields[j].expression, env).Yields?
      invariant payload == FieldPayload(fields[..i], env, eval)
    {
      match eval(fields[i].expression, env) {
        case Yields(v) =>
          FieldPayloadSnoc(fields, env, eval, i);
          payload := payload[fields[i].name := v];
          i := i + 1;
        case Failed(e) =>
          FailIndexAt(fields, env, eval, i);
          err := Some(e);
          return;
      }
    }
    FailIndexAt(fields, env, eval, i);
  }

  /** Copies each named property's value into the payload, read directly from the actor. */
  function AddPropertyValues<E>(payload: map<string, Value>, names: seq<string>, a: Actor<E>): (r: map<string, Value>)
    ensures r.Keys == payload.Keys + (set n | n in names)
    ensures forall n | n in names :: r[n] == GetPropertyValue(a, n)
    ensures forall k | k in payload && k !in names :: r[k] == payload[k]
    decreases |names|
  {
    if |names| == 0 then payload
    else AddPropertyValues(payload[names[0] := GetPropertyValue(a, names[0])], names[1..], a)
  }

  /**
   * Evaluates the event definition `id` against the actor's properties and the
   * optional caller context.
   */
  function EvaluateEventDef<E>(store: DataStore, a: Actor<E>, id: string, context: Option<Environment>, eval: Evaluator)
    : (r: Evaluation)
    ensures id !in store.eventDefinitions ==>
              r == Evaluation(false, None, None, Some(NotFound("EventDefinition", id)))
    ensures r.fired <==>
              && id in store.eventDefinitions
              && eval(store.eventDefinitions[id].triggerExpression, EvalEnvironment(a.props, context)) == Yields(Bool(true))
    ensures id in store.eventDefinitions ==>
              var def := store.eventDefinitions[id];
              var t := eval(def.triggerExpression, EvalEnvironment(a.props, context));
              && (t.Failed? ==> r == Evaluation(false, None, None, Some(t.error)))
              && (t.Yields? && !t.value.Bool? ==> r == Evaluation(false, None, None, None))
              && (t == Yields(Bool(false)) ==> r == Evaluation(false, Some(def), None, None))
    ensures id in store.eventDefinitions ==>
              var def := store.eventDefinitions[id];
              var env := EvalEnvironment(a.props, context);
              var fields := def.payloadFields;
              var n := FailIndex(fields, env, eval);
              eval(def.triggerExpression, env) == Yields(Bool(true)) ==>
                && r.definition == Some(def)
                && r.payload.Some?
                && r.err == (if n < |fields| then Some(eval(fields[n].expression, env).error) else None)
                && r.payload.value.Keys == FieldNames(fields[..n]) + (set p | p in def.payloadProperties)
                && (forall p | p in def.payloadProperties :: r.payload.value[p] == GetPropertyValue(a, p))
                && (forall i | 0 <= i < n && LastNamed(fields[..n], i) && fields[i].name !in def.payloadProperties ::
                      r.payload.value[fields[i].name] == eval(fields[i].expression, env).value)
  {
    if id !in store.eventDefinitions then Evaluation(false, None, None, Some(NotFound("EventDefinition", id)))
    else
      var def := store.eventDefinitions[id];
      var env := EvalEnvironment(a.props, context);
      match eval(def.triggerExpression, env)
      case Failed(e) => Evaluation(false, None, None, Some(e))
      case Yields(Bool(true)) =>
        var fr := FieldsResult(def.payloadFields, env, eval);
        Evaluation(true, Some(def), Some(AddPropertyValues(fr.payload, def.payloadProperties, a)), fr.err)
      case Yields(Bool(false)) => Evaluation(false, Some(def), None, None)
      case Yields(_) => Evaluation(false, None, None, None)
  }

  /**
   * A stand-in for the expression language that knows one comparison,
   * `temp > 100` (with or without spaces), over an integer `temp`, and fails on
   * anything else, as an undefined variable does.
   */
  function TempAbove100(expr: string, env: Environment): EvalResult
  {
    if (expr == "temp > 100" || expr == "temp>100") && "temp" in env && env["temp"].Int?
    then Yields(Bool(env["temp"].i > 100))
    else Failed(ExpressionFailed(expr, "undefined variable"))
  }

  /** An actor whose only property is `temp`, holding `t`. */
  function ActorWithTemp(t: int): Actor<()>
  {
    Actor(Equipment("eq1", "Oven", "", "", "", []), 0,
          map["temp" := PropertyDescriptor("temp", "INT", Int(t), "", "", ZeroTime)], [])
  }

  function HotRule(fields: seq<PayloadField>): EventDefinition
  {
    EventDefinition("hot", "temp > 100", fields, ["temp"])
  }

  function StoreWith(def: EventDefinition): DataStore
  {
    DataStore(map[], map[], map[def.id := def])
  }

  /** A true trigger with a field that evaluates fires with the field and the copied property. */
  lemma HotOvenFires()
    ensures var def := HotRule([PayloadField("flag", "temp>100")]);
            EvaluateEventDef(StoreWith(def), ActorWithTemp(150), "hot", None, TempAbove100)
              == Evaluation(true, Some(def), Some(map["flag" := Bool(true), "temp" := Int(150)]), None)
  {
    var def := HotRule([PayloadField("flag", "temp>100")]);
    var a := ActorWithTemp(150);
    var env := EvalEnvironment(a.props, None);
    assert env == map["temp" := Int(150)];
    assert TempAbove100("temp>100", env) == Yields(Bool(true));
    assert FailIndex(def.payloadFields, env, TempAbove100) == 1;
    assert def.payloadFields[..1] == def.payloadFields;
    var fr := FieldsResult(def.payloadFields, env, TempAbove100);
    assert fr.payload == map["flag" := Bool(true)] && fr.err.None?;
    assert AddPropertyValues(fr.payload, ["temp"], a) == map["flag" := Bool(true), "temp" := Int(150)];
  }

  /** A false trigger does not fire, builds no payload, and reports no error; the definition is returned. */
  lemma CoolOvenDoesNotFire()
    ensures var def := HotRule([PayloadField("flag", "temp>100")]);
            EvaluateEventDef(StoreWith(def), ActorWithTemp(50), "hot", None, TempAbove100)
              == Evaluation(false, Some(def), None, None)
  {
    var a := ActorWithTemp(50);
    assert EvalEnvironment(a.props, None) == map["temp" := Int(50)];
  }

  /**
   * A field that fails still fires the event: the payload keeps the copied
   * property, and the field's error is returned.
   */
  lemma FailingFieldKeepsProperties()
    ensures var def := HotRule([PayloadField("delta", "missing - 100")]);
            EvaluateEventDef(StoreWith(def), ActorWithTemp(150), "hot", None, TempAbove100)
              == Evaluation(true, Some(def), Some(map["temp" := Int(150)]),
                            Some(ExpressionFailed("missing - 100", "undefined variable")))
  {
    var def := HotRule([PayloadField("delta", "missing - 100")]);
    var a := ActorWithTemp(150);
    var env := EvalEnvironment(a.props, None);
    assert env == map["temp" := Int(150)];
    assert FailIndex(def.payloadFields, env, TempAbove100) == 0;
    assert def.payloadFields[..0] == [];
    var r := EvaluateEventDef(StoreWith(def), a, "hot", None, TempAbove100);
    assert r.payload.value.Keys == {"temp"};
  }

  /** The caller's context overrides a stored property of the same name. */
  lemma ContextOverridesProperty()
    ensures var def := HotRule([PayloadField("flag", "temp>100")]);
            EvaluateEventDef(StoreWith(def), ActorWithTemp(150), "hot", Some(map["temp" := Int(50)]), TempAbove100)
              == Evaluation(false, Some(def), None, None)
  {
    var a := ActorWithTemp(150);
    assert EvalEnvironment(a.props, Some(map["temp" := Int(50)])) == map["temp" := Int(50)];
  }
}
