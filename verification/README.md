# Managed equipment core: a Dafny model

This project models the core of an edge data-collection library. The core keeps one
piece of industrial equipment as an actor. The model covers three parts of it:

- **Property resolution** (`PropertyResolver`, `resolver.dfy`). An equipment instance's own
  properties are merged with those of its equipment-class chain. The merge runs from the
  immediate class up through `Parent` links, by property name. A more distant class
  overwrites a nearer one, and any class overwrites the instance. A failed class lookup
  ends the walk. The error is then returned together with everything merged before it.
- **The equipment actor** (`ManagedEquipment`, `equipment.dfy`). This covers construction,
  which describes every resolved property. It also covers property updates, the event log,
  the configuration level, and one turn of the request loop. The loop turn answers a tag-data
  request by running every tag-change handler in order. It answers a shutdown request and
  stops. It ignores any other request.
- **Event-definition evaluation** (`EventEvaluator`, `evaluator.dfy`). The property values,
  overlaid by the caller's context, form the variable environment. The evaluator runs the
  trigger expression against it. When the trigger is true, payload-field expressions are
  evaluated in order, up to the first one that fails. The named properties are then copied
  into the payload.
- **MQTT topic construction** (`MqttConnector`, `mqtt.dfy`, on top of `Strings`, `strings.dfy`).
  The topic is built by substituting placeholders in a template. It uses Go's
  `strings.Replace(s, old, new, -1)` as a verified `ReplaceAll`. The connector also has
  configuration defaults and the publication's retain rule.

`domain.dfy` holds the entities and `wrappers.dfy` the `Option`/`Result` types.

Collaborators the core calls but does not define are parameters of the model:

- the typed-value parser is a `Converter` function;
- the expression language is an `Evaluator` returning `Failed(error)` or `Yields(value)`;
- a tag-change handler is a pair of functions: one handles a message against the shared
  scratch map, the other words the acknowledgement for an error;
- the data store is a `DataStore` value whose maps are the lookups by id (a missing id is
  the not-found error);
- the clock is a `Timestamp` argument.

Behaviours kept as the code has them:

- `UpdatePropertyValue` always returns no error, even when the conversion fails.
- A request of any type other than tag data or shutdown gets no acknowledgement, and the
  loop keeps running. `SendRequest` reads its reply from the same channel that carries
  requests, so such a sender competes with the actor's next receive: it may take another
  caller's request or another request's acknowledgement as its reply, or wait indefinitely.
- `UpdatePropertyValue` on a name the actor does not hold reads Go's zero descriptor, which
  has an empty name and an empty data type. When converting for that empty type succeeds,
  the zero descriptor is stored under the new key. The descriptor's name is then `""`, not
  its key (`UpdateOfUnknownNameInsertsNamelessEntry`).
- A false trigger returns the definition along with `fired = false`. A non-boolean trigger
  result returns no definition.

## Model

| member | source | states |
|---|---|---|
| PropertyResolver.FindLast | common/utilities/managedEquipmentDefault.go:74-76 | within one property list, the entry kept for a name is the last one with that name; none exactly when no entry has it |
| PropertyResolver.Overlay | common/utilities/managedEquipmentDefault.go:84-86 | merging a list into a map: a name is present iff it was already or the list declares it; declared names take the list's last declaration, all other entries are unchanged |
| PropertyResolver.ClassWalk | common/utilities/managedEquipmentDefault.go:79-91 | the fetched classes form the parent chain from the instance's class; the walk ends without error exactly at an empty parent id, and otherwise with not-found for the first id missing from the store, consulting nothing after it |
| PropertyResolver.LastDecl | common/utilities/managedEquipmentDefault.go:74-87 | reference precedence: the declaration from the last layer that declares the name; none iff no layer does |
| PropertyResolver.MergeChain | common/utilities/managedEquipmentDefault.go:78-91 | the walk as the Go loop performs it; no contract of its own, its meaning is stated by `MergeChainMeaning` |
| PropertyResolver.Resolve | common/utilities/managedEquipmentDefault.go:68-73 | a missing equipment instance yields an empty map together with the not-found error |
| PropertyResolver.MergeChainMeaning | common/utilities/managedEquipmentDefault.go:78-91 | the merging walk gives each name the most distant fetched class's declaration, else the earlier entry, and reports the walk's failure |
| PropertyResolver.ResolvePrecedence | common/utilities/managedEquipmentDefault.go:66-94 | a name is resolved iff the instance or a fetched class declares it; the most distant fetched class wins, the instance only when no class declares it; the error is the failed lookup |
| PropertyResolver.ResolveWithoutClass | common/utilities/managedEquipmentDefault.go:72-77 | an instance without a class resolves to exactly its own properties keyed by name, each the instance's last declaration of that name, with no error |
| PropertyResolver.ParentClassWins | common/utilities/managedEquipmentDefault.go:79-91 | in a two-level chain, a name the parent class declares resolves to the parent's declaration, whatever the instance and its class declare |
| PropertyResolver.MissingParentKeepsMerged | common/utilities/managedEquipmentDefault.go:82-93 | a failed parent lookup returns exactly instance-then-class merged entries, not empty and not more, with the not-found error |
| ManagedEquipment.NewManagedEquipment | common/utilities/managedEquipmentDefault.go:26-64 | on successful resolution the keys are exactly the resolved names; each descriptor is named by its key, has the zero time, keeps the data type and class id, and has a class-property id only for class-scoped properties; a failed conversion leaves only that value nil; a resolution error leaves the map empty |
| ManagedEquipment.GetProperty | common/utilities/managedEquipmentDefault.go:118-120 | the stored descriptor, or the zero descriptor for an unknown name |
| ManagedEquipment.GetPropertyValue | common/utilities/managedEquipmentDefault.go:115-117 | the stored value, or nil for an unknown name |
| ManagedEquipment.UpdatePropertyValue | common/utilities/managedEquipmentDefault.go:96-106 | never returns an error; a failed conversion changes nothing; a successful one replaces only the named entry's value and time, keeping its name, type and class ids; every other entry, the log and the level are unchanged |
| ManagedEquipment.UpdateKeepsKeyedByName | common/utilities/managedEquipmentDefault.go:96-103 | updating a held property keeps every descriptor stored under its own name |
| ManagedEquipment.UpdateOfUnknownNameInsertsNamelessEntry | common/utilities/managedEquipmentDefault.go:97-102 | updating an unknown name whose conversion succeeds stores a descriptor with an empty name under that key |
| ManagedEquipment.ReadAfterUpdate | common/utilities/managedEquipmentDefault.go:96-117 | after a successful update the new value and time are read back, and other names read as before |
| ManagedEquipment.AddEvent | common/utilities/managedEquipmentDefault.go:108-113 | appends exactly one event at the end, keeps earlier events, properties and level, and returns no error |
| ManagedEquipment.SetConfigLevel | common/utilities/managedEquipmentDefault.go:122-125 | sets the level and changes nothing else |
| ManagedEquipment.ContextBefore | common/utilities/managedEquipmentDefault.go:154-157 | the scratch map the i-th handler sees, the empty map passed through the handlers before it; a reference definition used by `RunHandlers` |
| ManagedEquipment.RunHandlers | common/utilities/managedEquipmentDefault.go:156-162 | one run per handler, in order, even after failures; the i-th run's error is what the i-th handler returns on the scratch map its predecessors left, and its ack text is that handler's wording of that error |
| ManagedEquipment.JoinAcks | common/utilities/managedEquipmentDefault.go:161 | the in-order concatenation of ack texts; no contract of its own, stated by `JoinAcksAppend` and used in `AcceptRequest` |
| ManagedEquipment.JoinAcksAppend | common/utilities/managedEquipmentDefault.go:161 | the texts of two consecutive groups of runs join end to end |
| ManagedEquipment.TaggedMessage | common/utilities/managedEquipmentDefault.go:155 | the handlers' message is the request's, with only its owning asset id set to the equipment's id |
| ManagedEquipment.AcceptRequest | common/utilities/managedEquipmentDefault.go:147-182 | tag data: acknowledged with the in-order concatenation of all handlers' ack texts, loop continues; shutdown: acknowledged with the fixed text, loop stops; any other type: no acknowledgement, loop continues |
| ManagedEquipment.FailingHandlerDoesNotSilenceNext | common/utilities/managedEquipmentDefault.go:156-162 | with a failing first handler, the acknowledgement carries both handlers' texts in order |
| EventEvaluator.EvalEnvironment | common/utilities/eventDefEvaluatorDefault.go:40-48 | the environment holds every property value and every context entry; the context wins on a shared name; without a context only property values remain |
| EventEvaluator.FailIndex | common/utilities/eventDefEvaluatorDefault.go:70-79 | the first field whose expression fails: all fields before it evaluate |
| EventEvaluator.FieldPayload | common/utilities/eventDefEvaluatorDefault.go:70-75 | the payload of evaluated fields has exactly their names, each mapped to the value of the last field with that name |
| EventEvaluator.FieldsResult | common/utilities/eventDefEvaluatorDefault.go:67-79 | the fields result has no error exactly when every field evaluates |
| EventEvaluator.EvaluatePayloadFields | common/utilities/eventDefEvaluatorDefault.go:67-79 | the field loop keeps the fields before the first failure and returns that field's error, or none |
| EventEvaluator.AddPropertyValues | common/utilities/eventDefEvaluatorDefault.go:80-82 | every named property is added with its value read directly from the actor (nil when missing), overwriting a same-named field; other entries are kept |
| EventEvaluator.EvaluateEventDef | common/utilities/eventDefEvaluatorDefault.go:32-98 | lookup failure: not fired, nothing but the error; trigger error: not fired, that error; non-boolean: all empty; false: not fired, definition only; true: fired, partial field payload up to the first failing field plus copied properties, and that field's error; fired iff the trigger yields true |
| EventEvaluator.HotOvenFires | common/utilities/eventDefEvaluatorDefault.go:63-83 | temp 150 against `temp > 100` fires with payload flag true and temp 150, no error |
| EventEvaluator.CoolOvenDoesNotFire | common/utilities/eventDefEvaluatorDefault.go:84-85 | temp 50 does not fire, with no payload and no error |
| EventEvaluator.FailingFieldKeepsProperties | common/utilities/eventDefEvaluatorDefault.go:70-83 | a failing field still fires, with only the copied property in the payload and the field's error |
| EventEvaluator.ContextOverridesProperty | common/utilities/eventDefEvaluatorDefault.go:44-48 | a context value for temp hides the stored property from the trigger |
| Strings.ReplaceAll | common/drivers/libreConnectorMQTT.go:249 | reference definition of replace-all for a non-empty pattern; no contract of its own, related to the Go scan by `ReplaceAllByIndex` and characterised by the `ReplaceAll…` lemmas |
| Strings.Index | common/drivers/libreConnectorMQTT.go:249 | the first match position, with no match before it; none exactly when the pattern does not occur |
| Strings.ReplaceAllByIndex | common/drivers/libreConnectorMQTT.go:249 | the index-driven replacement loop equals the left-to-right, non-overlapping replacement |
| Strings.ReplaceAllNoMatch | common/drivers/libreConnectorMQTT.go:249 | a string without the pattern is returned unchanged |
| Strings.ReplaceAllSelf | common/drivers/libreConnectorMQTT.go:249 | replacing a pattern by itself changes nothing |
| Strings.ReplaceAllCopiesPrefix | common/drivers/libreConnectorMQTT.go:249 | text before the first occurrence is copied unchanged |
| Strings.ReplaceAllAtFirstMatch | common/drivers/libreConnectorMQTT.go:249 | at the first occurrence, the prefix is copied, the replacement inserted, and scanning resumes after the match |
| Strings.ReplaceAllAcrossSeparator | common/drivers/libreConnectorMQTT.go:249 | a character absent from the pattern splits the replacement into independent halves |
| Strings.ReplaceAllInPath | common/drivers/libreConnectorMQTT.go:248-258 | in a slash-separated path, each segment is replaced on its own |
| MqttConnector.NewConnectorConfig | common/drivers/libreConnectorMQTT.go:42-44 | the three topic settings, each defaulted when absent; no contract of its own, stated by `NewConnectorConfigDefaults` |
| MqttConnector.NewConnectorConfigDefaults | common/drivers/libreConnectorMQTT.go:42-44 | with nothing configured the template is `<EQNAME>/<CATEGORY>/<TAGNAME>` and the categories `EdgeTagChange` and `EdgeEvent`; a configured key overrides its default |
| MqttConnector.CategorySegment | common/drivers/libreConnectorMQTT.go:250-257 | the category switch; no contract of its own, stated through the built topic by `DefaultTagDataTopic`, `DefaultEventTopic` and `OtherCategoryTopic` |
| MqttConnector.BuildTopic | common/drivers/libreConnectorMQTT.go:247-261 | the three substitutions in order; no contract of its own, stated by `TopicWithoutPlaceholders`, `DefaultTemplateTopic` and `PlaceholderInAssetIsRewritten` |
| MqttConnector.TopicWithoutPlaceholders | common/drivers/libreConnectorMQTT.go:247-261 | a template without placeholders is returned unchanged |
| MqttConnector.DefaultTemplateTopic | common/drivers/libreConnectorMQTT.go:248-258 | the default template yields asset, category segment and item name joined by slashes, when the inserted values hold no later placeholder |
| MqttConnector.DefaultTagDataTopic | common/drivers/libreConnectorMQTT.go:247-261 | with default settings, tag data goes to `asset/EdgeTagChange/item` |
| MqttConnector.DefaultEventTopic | common/drivers/libreConnectorMQTT.go:250-256 | with default settings, an event goes to `asset/EdgeEvent/item` |
| MqttConnector.OtherCategoryTopic | common/drivers/libreConnectorMQTT.go:250-257 | with the default template and any configured categories, a category other than `TAGDATA` and `EVENT` goes under `EdgeMessage` |
| MqttConnector.PlaceholderInAssetIsRewritten | common/drivers/libreConnectorMQTT.go:249-258 | a `<TAGNAME>` inside the asset name is rewritten by the later substitution step |
| MqttConnector.Publish | common/drivers/libreConnectorMQTT.go:229-235 | the publication goes to the built topic at QoS 0 |
| MqttConnector.RetainOnlyTagData | common/drivers/libreConnectorMQTT.go:224-227 | a publication is retained exactly when the message category is `TAGDATA` |

## Left out

- Transactions (`BeginTransaction`/`Dispose`), logging, and the configuration and logging
  enablers are left out. They have no effect on results; the data store is a read-only value.
- `NewManagedEquipment`: the converter is taken to return no value together with an error,
  so a failed conversion stores nil; the Go code stores whatever value the converter
  returns alongside its error.
- `Resolve`, `NewManagedEquipment`: they require the class chain to end within as many
  lookups as the store has classes. Every acyclic chain meets this. On a cyclic chain the
  Go code does not terminate, so the model does not describe that case.
- The channel rendezvous of `SendRequest` and the blocking receive in `AcceptRequest` are
  left out. They are concurrency, so one request and its acknowledgement form a pure step.
  Whether the owner keeps calling the loop after `false` is up to the caller.
- Handlers' own effects on the actor's properties (they hold their own reference to it) are
  not modelled. Their only modelled effects are their error and the scratch map.
- Handler and parser error texts are not modelled, and neither is the `%+v` logging of
  descriptors.
- `strconv.ParseBool(fmt.Sprintf("%t", b))` on a boolean trigger result always succeeds. It
  is modelled as reading the boolean directly, so its unreachable error branch is left out.
- `GetConfigItemWithDefault` is not part of this model. A setting is its configured value,
  or the default when the key is absent, and a lookup error is treated as absent.
- `Connect`, `Close`, `subscribeToTopic`, JSON marshalling and the publish call in `send`,
  and `SendStdMessage`'s call sequence are left out. They are network I/O and configuration
  lookups that panic on failure.
- The `ListenFor*` methods are left out because they are empty.
- The historian and publish/subscribe port interfaces declare no logic and are left out.
- The equipment factory and the identity accessors (`GetEquipmentId`, `GetEquipmentName`,
  `GetEquipmentDescription`, `GetEquipmentLevel`, `GetPropertyMap`, `GetEventList`) are
  left out. They are plain field reads of the actor's state.
- The structure of an event descriptor is unknown, so the event log is generic in its
  element type.
- Go map iteration order is left out. Keys are unique, so it has no effect on the results.
- Strings are modelled as sequences of characters, not Go's byte strings, so `Index`
  counts characters where Go counts bytes. Replacement results agree because the
  placeholders are plain ASCII.
