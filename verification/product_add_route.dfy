/** The add-product API (`app/api/product/add/route.ts`): the content-type
    check, the ordered required-field check and the mapping of outcomes to
    status codes. The database's `create` is represented by its outcome. */
module ProductAddRoute {
  import opened Wrappers
  import opened JsStrings
  import opened Json
  import opened Http

  /** What `req.json()` produced, or the message of the `SyntaxError` it threw. */
  datatype ParsedBody = Parsed(data: Json) | Unparsable(message: string)

  /** A thrown value: an `Error` with its message, or anything else. */
  datatype Thrown = ErrorObject(message: string) | OtherValue

  /** What `Product.create(data)` did. */
  datatype CreateOutcome = Created(product: Json) | CreateThrew(thrown: Thrown)

  /** The required fields, in the order they are checked. */
  const RequiredFields: seq<string> := ["name", "price", "images", "userId"]

  /** The JSON content type is announced: the header contains
      `application/json` anywhere. */
  predicate IsJsonRequest(headers: map<string, string>) {
    Includes(ParamOr(headers, "content-type", ""), "application/json")
  }

  /** The message V8 gives the `TypeError` of reading a field of `null`. */
  function NullAccessMessage(field: string): string {
    "Cannot read properties of null (reading '" + field + "')"
  }

  /** The message answered for a thrown value: an `Error`'s own message,
      otherwise a fixed text. */
  function ThrownMessage(t: Thrown): string {
    match t
    case ErrorObject(m) => m
    case OtherValue => "Failed to add product"
  }

  /** The position of the first field whose value is falsy, checking in the
      given order. */
  function FirstMissing(data: Json, fields: seq<string>): (r: Option<nat>)
    requires !data.JNull?
    ensures r.Some? ==>
      && r.value < |fields|
      && !TruthyValue(Field(data, fields[r.value]))
      && forall j :: 0 <= j < r.value ==> TruthyValue(Field(data, fields[j]))
    ensures r.None? ==> forall j :: 0 <= j < |fields| ==> TruthyValue(Field(data, fields[j]))
  {
    if |fields| == 0 then None
    else if !TruthyValue(Field(data, fields[0])) then Some(0)
    else match FirstMissing(data, fields[1..])
      case None => None
      case Some(k) => Some(k + 1)
  }

  /** `POST`. Without the JSON content type the answer is 415 and the body is
      never looked at. Otherwise an unparsable body or a `null` body answers
      500 with the thrown error's message; a body whose first falsy required
      field (in the order name, price, images, userId) is `f` answers 400
      naming `f`; and a body with every required field truthy answers 201
      with the created product, or 500 when creation throws. */
  function AddProduct(headers: map<string, string>, body: ParsedBody, create: CreateOutcome): (reply: Reply<Json>)
    ensures !IsJsonRequest(headers) ==> reply == Error(415, "Expected application/json")
    ensures IsJsonRequest(headers) && body.Unparsable? ==> reply == Error(500, body.message)
    ensures IsJsonRequest(headers) && body == Parsed(JNull) ==>
      reply == Error(500, NullAccessMessage("name"))
    ensures IsJsonRequest(headers) && body.Parsed? && !body.data.JNull? ==>
      (reply.status == 400 <==>
        exists k :: 0 <= k < |RequiredFields| && !TruthyValue(Field(body.data, RequiredFields[k])))
    ensures reply.status == 400 ==>
      exists k :: 0 <= k < |RequiredFields|
        && body.Parsed? && !body.data.JNull?
        && !TruthyValue(Field(body.data, RequiredFields[k]))
        && (forall j :: 0 <= j < k ==> TruthyValue(Field(body.data, RequiredFields[j])))
        && reply == Error(400, "Missing required field: " + RequiredFields[k])
    ensures reply.status == 201 <==>
      && IsJsonRequest(headers) && body.Parsed? && !body.data.JNull?
      && (forall j :: 0 <= j < |RequiredFields| ==> TruthyValue(Field(body.data, RequiredFields[j])))
      && create.Created?
    ensures reply.status == 201 ==> reply.body == Payload(JObject(map["product" := create.product]))
    ensures (&& IsJsonRequest(headers) && body.Parsed? && !body.data.JNull?
             && FirstMissing(body.data, RequiredFields).None? && create.CreateThrew?) ==>
      reply == Error(500, ThrownMessage(create.thrown))
  {
    if !IsJsonRequest(headers) then Error(415, "Expected application/json")
    else match body
      case Unparsable(message) => Error(500, message)
      case Parsed(data) =>
        if data.JNull? then Error(500, NullAccessMessage(RequiredFields[0]))
        else match FirstMissing(data, RequiredFields)
          case Some(k) => Error(400, "Missing required field: " + RequiredFields[k])
          case None =>
            match create
            case Created(product) => Reply(201, Payload(JObject(map["product" := product])))
            case CreateThrew(t) => Error(500, ThrownMessage(t))
  }

  /** A price of 0 counts as missing: with a truthy name, a zero price is
      reported whatever the other fields hold. */
  lemma ZeroPriceIsMissing(headers: map<string, string>, fields: map<string, Json>, create: CreateOutcome)
    requires IsJsonRequest(headers)
    requires "name" in fields && TruthyValue(Some(fields["name"]))
    requires "price" in fields && fields["price"] == JNumber(0.0)
    ensures AddProduct(headers, Parsed(JObject(fields)), create)
      == Error(400, "Missing required field: price")
  {
    var data := JObject(fields);
    assert Field(data, RequiredFields[0]) == Some(fields["name"]);
    assert Field(data, RequiredFields[1]) == Some(JNumber(0.0));
    assert FirstMissing(data, RequiredFields) == Some(1);
    assert RequiredFields[1] == "price";
    assert "Missing required field: " + "price" == "Missing required field: price";
  }
}
