/**
 * The entities the equipment core reads and produces: equipment, equipment
 * classes and their properties as the data store holds them, the resolved
 * property descriptors an equipment actor owns, the service requests it
 * exchanges with its callers, and the event definitions rules are built from.
 */
module Domain {
  import opened Wrappers

  /** Why an operation failed. The collaborators' own error texts are not modelled. */
  datatype Error =
    | NotFound(entity: string, id: string)
    | ConversionFailed(dataType: string, reason: string)
    | ExpressionFailed(expression: string, reason: string)
    | HandlerFailed(reason: string)

  /** A dynamically typed value (Go's `interface{}`); `Nil` is Go's `nil`. */
  datatype Value =
    | Nil
    | Bool(b: bool)
    | Int(i: int)
    | Str(s: string)
    | Other(kind: string, text: string)

  /** A point in time; `ZeroTime` is Go's `time.Time{}`. Clocks are passed in. */
  datatype Timestamp = ZeroTime | At(nanos: int)

  /** The name of a property's declared data type (string, number, boolean, ...). */
  type DataType = string

  /** A property as persisted; `classId` is "" for a property declared on an instance. */
  datatype Property = Property(id: string, name: string, dataType: DataType, value: string, classId: string)

  /** An equipment instance; `classId` is "" when it has no equipment class. */
  datatype Equipment = Equipment(
    id: string,
    name: string,
    description: string,
    level: string,
    classId: string,
    properties: seq<Property>)

  /** An equipment class with its own properties; `parentId` is "" at the top of a chain. */
  datatype EquipmentClass = EquipmentClass(id: string, properties: seq<Property>, parentId: string)

  /** One named payload value computed by an expression. */
  datatype PayloadField = PayloadField(name: string, expression: string)

  /** A persisted rule: a trigger expression, ordered payload fields, and property names copied verbatim. */
  datatype EventDefinition = EventDefinition(
    id: string,
    triggerExpression: string,
    payloadFields: seq<PayloadField>,
    payloadProperties: seq<string>)

  /** The read-only view of the data store: lookups by id, a missing id being a not-found error. */
  datatype DataStore = DataStore(
    equipment: map<string, Equipment>,
    classes: map<string, EquipmentClass>,
    eventDefinitions: map<string, EventDefinition>)

  /** The resolved form of a property held by an equipment actor. */
  datatype PropertyDescriptor = PropertyDescriptor(
    name: string,
    dataType: DataType,
    value: Value,
    classPropertyId: string,
    equipmentClassId: string,
    lastUpdate: Timestamp)

  /** Go's zero-valued descriptor, which a lookup of a missing name yields. */
  const ZeroDescriptor := PropertyDescriptor("", "", Nil, "", "", ZeroTime)

  /** A tag-change or event message as exchanged with devices and the broker. */
  datatype StdMessage = StdMessage(
    owningAsset: string,
    owningAssetId: string,
    itemName: string,
    itemValue: Value,
    category: string)

  const EmptyMessage := StdMessage("", "", "", Nil, "")

  /** The kinds of service request; `Unrecognised` stands for every other code. */
  datatype ServiceType = TagData | TagDataAck | Shutdown | ShutdownAck | Unrecognised(code: string)

  datatype ServiceRequest = ServiceRequest(
    serviceType: ServiceType,
    time: Timestamp,
    message: string,
    tagInfo: StdMessage)

  /** The conversion of a raw value to the typed value of a data type (a foreign parser). */
  type Converter = (DataType, Value) -> Result<Value, Error>

  /** The variables an expression is evaluated against. */
  type Environment = map<string, Value>

  /** What the (foreign) expression language returns: an error or a value of some type. */
  datatype EvalResult = Failed(error: Error) | Yields(value: Value)

  type Evaluator = (string, Environment) -> EvalResult
}
