/**
 * The manifest-update subscription processor: a websocket client subscribes to updates of one manifest under
 * the topic `<id>_ManifestUpdate`, and each modification of a manifest in the manifest table's stream is
 * turned into a message under the topic of the new image's id.
 *
 * JavaScript values are modelled by `JsValue`: numbers are integers here, and an object is a map from property
 * names to values.
 */
module ManifestUpdateProcessor {
  import opened Wrappers

  datatype JsValue =
    | Undefined
    | Null
    | Bool(b: bool)
    | Num(n: int)
    | Str(s: string)
    | Obj(properties: map<string, JsValue>)

  const SUBSCRIPTION_TYPE: string := "ManifestUpdate"

  /** The event source of a DynamoDB stream record. */
  const DYNAMODB_SOURCE: string := "aws:dynamodb"

  const MODIFY: string := "MODIFY"

  /** JavaScript truthiness. */
  predicate Truthy(v: JsValue) {
    match v
    case Undefined => false
    case Null => false
    case Bool(b) => b
    case Num(n) => n != 0
    case Str(s) => s != ""
    case Obj(_) => true
  }

  /** `v?.name`: undefined on null or undefined, on a primitive, and for a missing property. */
  function Property(v: JsValue, name: string): (r: JsValue)
    ensures r != Undefined ==> v.Obj? && name in v.properties && r == v.properties[name]
  {
    if v.Obj? && name in v.properties then v.properties[name] else Undefined
  }

  /** The decimal digits of a natural number. */
  function Digits(n: nat): (r: string)
    ensures |r| > 0 && forall k :: 0 <= k < |r| ==> '0' <= r[k] <= '9'
    decreases n
  {
    var d := [('0' as int + n % 10) as char];
    if n < 10 then d else Digits(n / 10) + d
  }

  /** What a template literal makes of a value. */
  function ToText(v: JsValue): string {
    match v
    case Undefined => "undefined"
    case Null => "null"
    case Bool(b) => if b then "true" else "false"
    case Num(n) => if n < 0 then "-" + Digits(-n) else Digits(n)
    case Str(s) => s
    case Obj(_) => "[object Object]"
  }

  /** The TypeError reading a property of null or undefined raises. */
  function CannotRead(v: JsValue, name: string): string
    requires v == Undefined || v == Null
  {
    "Cannot read properties of " + ToText(v) + " (reading '" + name + "')"
  }

  /** getTopicById: the id followed by `_ManifestUpdate`. */
  function TopicById(id: string): (topic: string)
    ensures |topic| == |id| + 1 + |SUBSCRIPTION_TYPE|
    ensures topic[..|id|] == id && topic[|id|..] == "_" + SUBSCRIPTION_TYPE
  {
    id + "_" + SUBSCRIPTION_TYPE
  }

  /** Two ids have the same topic only if they are the same id. */
  lemma TopicByIdInjective(a: string, b: string)
    requires TopicById(a) == TopicById(b)
    ensures a == b
  {
    assert |a| == |b|;
    assert a == TopicById(a)[..|a|] == TopicById(b)[..|b|] == b;
  }

  /** toSubscribe: `type === SUBSCRIPTION_TYPE && payload?.id`, which is `false` or the id itself. */
  function ToSubscribe(subscriptionType: string, payload: JsValue): (r: JsValue)
    ensures Truthy(r) <==> subscriptionType == SUBSCRIPTION_TYPE && Truthy(Property(payload, "id"))
    ensures Truthy(r) ==> r == payload.properties["id"]
  {
    if subscriptionType == SUBSCRIPTION_TYPE then Property(payload, "id") else Bool(false)
  }

  /**
   * getTopic: the topic of `payload.id`, a TypeError when the payload is null or undefined. A string id
   * subscribes to that id's topic; a payload without an id subscribes to the topic of the text "undefined".
   */
  function GetTopic(payload: JsValue): (r: Result<string, string>)
    ensures r.Failure? <==> payload == Undefined || payload == Null
    ensures r.Failure? ==> r.error == CannotRead(payload, "id")
    ensures Property(payload, "id").Str? ==> r == Success(TopicById(Property(payload, "id").s))
    ensures r.Success? && Property(payload, "id") == Undefined ==> r.value == TopicById("undefined")
  {
    if payload == Undefined || payload == Null then Failure(CannotRead(payload, "id"))
    else Success(TopicById(ToText(Property(payload, "id"))))
  }

  /** `s.startsWith(prefix)`. */
  predicate StartsWith(s: string, prefix: string) {
    |prefix| <= |s| && s[..|prefix|] == prefix
  }

  /** The fields of a stream event toProcess reads; a missing field is `None`. */
  datatype StreamEvent = StreamEvent(eventSource: Option<string>, eventName: Option<string>,
                                     eventSourceARN: Option<string>)

  /**
   * toProcess: a modification in a DynamoDB stream whose source ARN starts with the manifest table's ARN.
   * The conditions are evaluated left to right; an unset MANIFEST_TABLE_ARN is searched for as the text
   * "undefined", and a missing source ARN raises a TypeError when it is reached.
   */
  function ToProcess(manifestTableArn: Option<string>, event: StreamEvent): (r: Result<bool, string>)
    ensures r.Failure? <==>
      event.eventSource == Some(DYNAMODB_SOURCE) && event.eventName == Some(MODIFY) && event.eventSourceARN.None?
    ensures r == Success(true) <==>
      && event.eventSource == Some(DYNAMODB_SOURCE) && event.eventName == Some(MODIFY)
      && event.eventSourceARN.Some?
      && StartsWith(event.eventSourceARN.value, if manifestTableArn.Some? then manifestTableArn.value else "undefined")
  {
    if event.eventSource != Some(DYNAMODB_SOURCE) || event.eventName != Some(MODIFY) then Success(false)
    else if event.eventSourceARN.None? then Failure(CannotRead(Undefined, "startsWith"))
    else
      var prefix := if manifestTableArn.Some? then manifestTableArn.value else ToText(Undefined);
      Success(StartsWith(event.eventSourceARN.value, prefix))
  }

  /** A stream record: its `dynamodb` part, with the new image already unmarshalled into an object. */
  datatype StreamRecord = StreamRecord(newImage: Option<map<string, JsValue>>)
  datatype DynamoDBRecord = DynamoDBRecord(dynamodb: Option<StreamRecord>)

  datatype Message = Message(topic: string, messageType: string, data: map<string, JsValue>)

  /**
   * process: with a new image, a ManifestUpdate message carrying it, under the topic a subscriber whose payload
   * id is the image's `Id` listens on; null otherwise.
   */
  function Process(record: DynamoDBRecord): (r: Option<Message>)
    ensures r.Some? <==> record.dynamodb.Some? && record.dynamodb.value.newImage.Some?
    ensures r.Some? ==>
      var data := record.dynamodb.value.newImage.value;
      && r.value.messageType == SUBSCRIPTION_TYPE && r.value.data == data
      && GetTopic(Obj(map["id" := Property(Obj(data), "Id")])) == Success(r.value.topic)
    ensures r.Some? && Property(Obj(r.value.data), "Id").Str? ==>
      r.value.topic == TopicById(Property(Obj(r.value.data), "Id").s)
  {
    if record.dynamodb.Some? && record.dynamodb.value.newImage.Some? then
      var data := record.dynamodb.value.newImage.value;
      var topic := TopicById(ToText(Property(Obj(data), "Id")));
      Some(Message(topic, SUBSCRIPTION_TYPE, data))
    else
      None
  }

  /**
   * A client that subscribed with payload id X receives the message of a processed record whose new image has
   * Id X; for string ids, it receives it only then.
   */
  lemma TopicsAgree(subscriptionType: string, payload: JsValue, record: DynamoDBRecord)
    requires Truthy(ToSubscribe(subscriptionType, payload)) && Process(record).Some?
    ensures Property(payload, "id") == Property(Obj(record.dynamodb.value.newImage.value), "Id") ==>
      GetTopic(payload) == Success(Process(record).value.topic)
    ensures Property(payload, "id").Str? && Property(Obj(record.dynamodb.value.newImage.value), "Id").Str? ==>
      (GetTopic(payload) == Success(Process(record).value.topic) <==>
         Property(payload, "id") == Property(Obj(record.dynamodb.value.newImage.value), "Id"))
  {
    var id := Property(payload, "id");
    var imageId := Property(Obj(record.dynamodb.value.newImage.value), "Id");
    if id.Str? && imageId.Str? && GetTopic(payload) == Success(Process(record).value.topic) {
      TopicByIdInjective(id.s, imageId.s);
    }
  }
}
