/**
 * The managed-equipment actor: one equipment instance, its configuration
 * level, its resolved property descriptors and its event log. Every mutation
 * is a pure state transition here; the channel hand-off that serialises them
 * in the running system is reduced to one request/acknowledgement step.
 */
module ManagedEquipment {
  import opened Wrappers
  import opened Domain
  import PropertyResolver

  /** The actor's state; `E` is the (unmodelled) shape of an event descriptor. */
  datatype Actor<E> = Actor(
    equipment: Equipment,
    configLevel: int,
    props: map<string, PropertyDescriptor>,
    events: seq<E>)

  /** The new state after an operation together with the error it returned. */
  datatype Outcome<E> = Outcome(actor: Actor<E>, err: Option<Error>)

  /** Every descriptor is stored under its own name. */
  predicate KeyedByName(props: map<string, PropertyDescriptor>)
  {
    forall k | k in props :: props[k].name == k
  }

  /** The typed value of a raw property, `Nil` when its conversion fails. */
  function TypedValue(p: Property, convert: Converter): Value
  {
    match convert(p.dataType, Str(p.value))
    case Ok(v) => v
    case Err(_) => Nil
  }

  /** The descriptor built for a resolved property. */
  function Describe(name: string, p: Property, convert: Converter): PropertyDescriptor
  {
    PropertyDescriptor(name, p.dataType, TypedValue(p, convert), if p.classId != "" then p.id else "", p.classId, ZeroTime)
  }

  /**
   * Construction: resolve the instance's properties once and describe each.
   * A failed conversion leaves only that property's value unset; a resolution
   * error leaves the property map empty.
   */
  function NewManagedEquipment<E>(eq: Equipment, store: DataStore, convert: Converter): (a: Actor<E>)
    requires PropertyResolver.ChainTerminates(store, eq.id)
    ensures a.equipment == eq && a.configLevel == 0 && a.events == []
    ensures PropertyResolver.Resolve(store, eq.id).err.Some? ==> a.props == map[]
    ensures var res := PropertyResolver.Resolve(store, eq.id);
            res.err.None? ==>
              && a.props.Keys == res.props.Keys
              && KeyedByName(a.props)
              && forall k | k in a.props ::
                   && a.props[k].dataType == res.props[k].dataType
                   && a.props[k].value == TypedValue(res.props[k], convert)
                   && a.props[k].equipmentClassId == res.props[k].classId
                   && a.props[k].classPropertyId == (if res.props[k].classId != "" then res.props[k].id else "")
                   && a.props[k].lastUpdate == ZeroTime
  {
    var res := PropertyResolver.Resolve(store, eq.id);
    var props := if res.err.None? then map k | k in res.props :: Describe(k, res.props[k], convert) else map[];
    Actor(eq, 0, props, [])
  }

  /** The descriptor stored under `name`, or Go's zero descriptor when there is none. */
  function GetProperty<E>(a: Actor<E>, name: string): (d: PropertyDescriptor)
    ensures name in a.props ==> d == a.props[name]
    ensures name !in a.props ==> d == ZeroDescriptor
  {
    if name in a.props then a.props[name] else ZeroDescriptor
  }

  /** The value stored under `name`, `Nil` when there is none. */
  function GetPropertyValue<E>(a: Actor<E>, name: string): (v: Value)
    ensures name in a.props ==> v == a.props[name].value
    ensures name !in a.props ==> v == Nil
  {
    GetProperty(a, name).value
  }

  /**
   * Converts `raw` with the data type of the descriptor under `name` and, on
   * success, stores the new value stamped with `now`. The error returned is
   * always none, even when the conversion fails.
   */
  function UpdatePropertyValue<E>(a: Actor<E>, name: string, raw: Value, now: Timestamp, convert: Converter): (r: Outcome<E>)
    ensures r.err.None?
    ensures r.actor.equipment == a.equipment && r.actor.configLevel == a.configLevel && r.actor.events == a.events
    ensures convert(GetProperty(a, name).dataType, raw).Err? ==> r.actor.props == a.props
    ensures var pd := GetProperty(a, name);
            var c := convert(pd.dataType, raw);
            c.Ok? ==>
              && name in r.actor.props
              && r.actor.props[name].value == c.value
              && r.actor.props[name].lastUpdate == now
              && r.actor.props[name].name == pd.name
              && r.actor.props[name].dataType == pd.dataType
              && r.actor.props[name].classPropertyId == pd.classPropertyId
              && r.actor.props[name].equipmentClassId == pd.equipmentClassId
    ensures forall k | k != name :: (k in r.actor.props <==> k in a.props)
    ensures forall k | k != name && k in a.props :: r.actor.props[k] == a.props[k]
  {
    var pd := GetProperty(a, name);
    match convert(pd.dataType, raw)
    case Ok(v) => Outcome(a.(props := a.props[name := pd.(value := v, lastUpdate := now)]), None)
    case Err(_) => Outcome(a, None)
  }

  /** Updating a property that exists keeps every descriptor stored under its own name. */
  lemma UpdateKeepsKeyedByName<E>(a: Actor<E>, name: string, raw: Value, now: Timestamp, convert: Converter)
    requires KeyedByName(a.props) && name in a.props
    ensures KeyedByName(UpdatePropertyValue(a, name, raw, now, convert).actor.props)
  {
  }

  /**
   * Updating a name the actor does not hold reads Go's zero descriptor; when
   * the conversion for the empty data type succeeds, that descriptor, with an
   * empty name, is stored under the new key.
   */
  lemma UpdateOfUnknownNameInsertsNamelessEntry<E>(a: Actor<E>, name: string, raw: Value, now: Timestamp, convert: Converter)
    requires name !in a.props && name != ""
    requires convert("", raw).Ok?
    ensures var props := UpdatePropertyValue(a, name, raw, now, convert).actor.props;
            && name in props
            && props[name].name == ""
            && !KeyedByName(props)
  {
  }

  /** After a successful update the new value is read back, and every other name reads as before. */
  lemma ReadAfterUpdate<E>(a: Actor<E>, name: string, raw: Value, now: Timestamp, convert: Converter, other: string)
    requires name in a.props && convert(a.props[name].dataType, raw).Ok?
    requires other != name
    ensures var b := UpdatePropertyValue(a, name, raw, now, convert).actor;
            && GetPropertyValue(b, name) == convert(a.props[name].dataType, raw).value
            && GetProperty(b, name).lastUpdate == now
            && GetPropertyValue(b, other) == GetPropertyValue(a, other)
  {
  }

  /** Appends one event to the log; the error returned is always none. */
  function AddEvent<E>(a: Actor<E>, eventName: string, ev: E): (r: Outcome<E>)
    ensures r.err.None?
    ensures |r.actor.events| == |a.events| + 1
    ensures r.actor.events[..|a.events|] == a.events && r.actor.events[|a.events|] == ev
    ensures r.actor.equipment == a.equipment && r.actor.configLevel == a.configLevel && r.actor.props == a.props
  {
    Outcome(a.(events := a.events + [ev]), None)
  }

  /** Sets the configuration level and nothing else. */
  function SetConfigLevel<E>(a: Actor<E>, level: int): (r: Actor<E>)
    ensures r.configLevel == level
    ensures r.equipment == a.equipment && r.props == a.props && r.events == a.events
  {
    a.(configLevel := level)
  }

  /** The handlers' shared scratch map for one tag-change request. */
  type HandlerContext = map<string, Value>

  /** What one handler invocation returns: its error, and the scratch map as it left it. */
  datatype HandlerStep = HandlerStep(err: Option<Error>, context: HandlerContext)

  /** A tag-change handler: interprets a tag message, and words the acknowledgement for its error. */
  datatype TagChangeHandler = TagChangeHandler(
    handle: (StdMessage, HandlerContext) -> HandlerStep,
    ackMessage: Option<Error> -> string)

  /** One handler's invocation in a request: its error and its acknowledgement text. */
  datatype HandlerRun = HandlerRun(err: Option<Error>, ack: string)

  /** The scratch map the `i`-th handler sees: `ctx` passed through the first `i` handlers in turn. */
  function ContextBefore(hs: seq<TagChangeHandler>, msg: StdMessage, ctx: HandlerContext, i: nat): HandlerContext
    requires i <= |hs|
    decreases i
  {
    if i == 0 then ctx else hs[i - 1].handle(msg, ContextBefore(hs, msg, ctx, i - 1)).context
  }

  /** Skipping the first handler is the same as starting from the map it leaves. */
  lemma {:induction false} ContextBeforeTail(hs: seq<TagChangeHandler>, msg: StdMessage, ctx: HandlerContext, i: nat)
    requires 0 < |hs| && i < |hs|
    ensures ContextBefore(hs[1..], msg, hs[0].handle(msg, ctx).context, i) == ContextBefore(hs, msg, ctx, i + 1)
    decreases i
  {
    if i > 0 {
      ContextBeforeTail(hs, msg, ctx, i - 1);
      assert hs[1..][i - 1] == hs[i];
    }
  }

  /**
   * The handlers run in order on the same message, each seeing the scratch map
   * its predecessor left; a failing handler does not stop the ones after it.
   */
  function RunHandlers(hs: seq<TagChangeHandler>, msg: StdMessage, ctx: HandlerContext): (runs: seq<HandlerRun>)
    ensures |runs| == |hs|
    ensures forall i | 0 <= i < |hs| :: runs[i].ack == hs[i].ackMessage(runs[i].err)
    ensures forall i | 0 <= i < |hs| :: runs[i].err == hs[i].handle(msg, ContextBefore(hs, msg, ctx, i)).err
  {
    if |hs| == 0 then []
    else
      var step := hs[0].handle(msg, ctx);
      var rest := RunHandlers(hs[1..], msg, step.context);
      assert forall i | 0 <= i < |hs| - 1 :: rest[i].err == hs[i + 1].handle(msg, ContextBefore(hs, msg, ctx, i + 1)).err by {
        forall i | 0 <= i < |hs| - 1
          ensures rest[i].err == hs[i + 1].handle(msg, ContextBefore(hs, msg, ctx, i + 1)).err
        {
          ContextBeforeTail(hs, msg, ctx, i);
          assert hs[1..][i] == hs[i + 1];
        }
      }
      [HandlerRun(step.err, hs[0].ackMessage(step.err))] + rest
  }

  /** The acknowledgement texts concatenated in order. */
  function JoinAcks(runs: seq<HandlerRun>): string
  {
    if |runs| == 0 then "" else runs[0].ack + JoinAcks(runs[1..])
  }

  /** Acknowledgement texts of consecutive runs join end to end. */
  lemma {:induction false} JoinAcksAppend(a: seq<HandlerRun>, b: seq<HandlerRun>)
    ensures JoinAcks(a + b) == JoinAcks(a) + JoinAcks(b)
    decreases |a|
  {
    if |a| == 0 {
      assert a + b == b;
    } else {
      assert (a + b)[1..] == a[1..] + b;
      JoinAcksAppend(a[1..], b);
    }
  }

  /** The tag message handed to the handlers: the request's, owned by this actor's equipment. */
  function TaggedMessage<E>(a: Actor<E>, rqst: ServiceRequest): (m: StdMessage)
    ensures m.owningAssetId == a.equipment.id
    ensures m.(owningAssetId := rqst.tagInfo.owningAssetId) == rqst.tagInfo
  {
    rqst.tagInfo.(owningAssetId := a.equipment.id)
  }

  const ShutdownAckText := "Shutdown request acknowledged"

  /**
   * One turn of the actor loop on a received request: the acknowledgement it
   * sends back, if any, and whether the loop should keep running.
   */
  method AcceptRequest<E>(a: Actor<E>, rqst: ServiceRequest, handlers: seq<TagChangeHandler>, now: Timestamp)
    returns (ack: Option<ServiceRequest>, keepRunning: bool)
    ensures keepRunning <==> !rqst.serviceType.Shutdown?
    ensures rqst.serviceType.TagData? ==>
              ack == Some(ServiceRequest(TagDataAck, now,
                                         JoinAcks(RunHandlers(handlers, TaggedMessage(a, rqst), map[])),
                                         EmptyMessage))
    ensures rqst.serviceType.Shutdown? ==>
              ack == Some(ServiceRequest(ShutdownAck, now, ShutdownAckText, EmptyMessage))
    ensures !rqst.serviceType.TagData? && !rqst.serviceType.Shutdown? ==> ack.None?
  {
    match rqst.serviceType {
      case TagData =>
        var msg := TaggedMessage(a, rqst);
        var ackMsg := "";
        var ctx: HandlerContext := map[];
        var i := 0;
        while i < |handlers|
          invariant 0 <= i <= |handlers|
          invariant ackMsg + JoinAcks(RunHandlers(handlers[i..], msg, ctx))
                    == JoinAcks(RunHandlers(handlers, msg, map[]))
        {
          var step := handlers[i].handle(msg, ctx);
          assert handlers[i..][1..] == handlers[i + 1..];
          ackMsg := ackMsg + handlers[i].ackMessage(step.err);
          ctx := step.context;
          i := i + 1;
        }
        assert handlers[i..] == [];
        assert JoinAcks(RunHandlers(handlers[i..], msg, ctx)) == "";
        assert ackMsg + "" == ackMsg;
        ack := Some(ServiceRequest(TagDataAck, now, ackMsg, EmptyMessage));
        keepRunning := true;
      case Shutdown =>
        ack := Some(ServiceRequest(ShutdownAck, now, ShutdownAckText, EmptyMessage));
        keepRunning := false;
      case _ =>
        ack := None;
        keepRunning := true;
    }
  }

  /**
   * A handler that fails does not silence the next one: with two handlers the
   * acknowledgement carries the first's text for its error followed by the
   * second's text for its own outcome.
   */
  lemma FailingHandlerDoesNotSilenceNext(h1: TagChangeHandler, h2: TagChangeHandler, msg: StdMessage)
    requires h1.handle(msg, map[]).err.Some?
    ensures var s1 := h1.handle(msg, map[]);
            var s2 := h2.handle(msg, s1.context);
            JoinAcks(RunHandlers([h1, h2], msg, map[])) == h1.ackMessage(s1.err) + h2.ackMessage(s2.err)
  {
    var s1 := h1.handle(msg, map[]);
    var s2 := h2.handle(msg, s1.context);
    assert [h1, h2][1..] == [h2];
    assert [h2][1..] == [];
    var runs := RunHandlers([h1, h2], msg, map[]);
    assert RunHandlers([h2], msg, s1.context) == [HandlerRun(s2.err, h2.ackMessage(s2.err))];
    assert runs == [HandlerRun(s1.err, h1.ackMessage(s1.err)), HandlerRun(s2.err, h2.ackMessage(s2.err))];
    assert runs[1..][1..] == [];
    assert JoinAcks(runs[1..]) == h2.ackMessage(s2.err) + "";
  }
}
