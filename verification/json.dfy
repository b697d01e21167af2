/**
 * Values produced by `JSON.parse`, and the handful of JavaScript semantics the
 * request checks and the synthesiser apply to them: truthiness, property
 * reads and template-literal rendering.
 */
module Json {
  import opened Wrappers
  import opened Strings

  /** A parsed JSON value; numbers are restricted to integers. */
  datatype Json =
    | JNull
    | JBool(b: bool)
    | JNumber(n: int)
    | JString(s: string)
    | JArray(items: seq<Json>)
    | JObject(fields: map<string, Json>)

  /** JavaScript truthiness of a property value; `None` is `undefined`. */
  predicate Truthy(v: Option<Json>) {
    match v
    case None => false
    case Some(JNull) => false
    case Some(JBool(b)) => b
    case Some(JNumber(n)) => n != 0
    case Some(JString(s)) => s != ""
    case Some(_) => true
  }

  /** The message of the TypeError thrown by reading a property of `null`. */
  function NullReadMessage(key: string): string {
    "Cannot read properties of null (reading '" + key + "')"
  }

  /**
   * The property read `v.key`. Reading from `null` throws a TypeError; reading
   * a key an object lacks yields `undefined`. The keys this model reads are
   * not properties of arrays, strings, numbers or booleans, so those yield
   * `undefined` too.
   */
  function Prop(v: Json, key: string): Result<Option<Json>, string> {
    match v
    case JNull => Err(NullReadMessage(key))
    case JObject(fields) => Ok(if key in fields then Some(fields[key]) else None)
    case _ => Ok(None)
  }

  /** The property read `v.key` of a value already known not to be `null`. */
  function Field(v: Json, key: string): Option<Json> {
    match v
    case JObject(fields) => if key in fields then Some(fields[key]) else None
    case _ => None
  }

  /** The message of the TypeError thrown when an object cannot be converted to a string. */
  const ToPrimitiveMessage: string := "Cannot convert object to primitive value"

  /**
   * Whether `${v}` throws. `JSON.parse` makes every key of an object an own
   * property, so a `toString` key hides the inherited method behind a value
   * that cannot be called; `valueOf` then yields the object itself, which is
   * not a primitive, and the conversion throws a TypeError. An array converts
   * its elements, so it throws when one of them does.
   */
  predicate RenderingThrows(v: Json)
    decreases v
  {
    match v
    case JObject(fields) => "toString" in fields
    case JArray(items) => exists i :: 0 <= i < |items| && RenderingThrows(items[i])
    case _ => false
  }

  /**
   * The text a template literal `${v}` produces for a parsed value, or the
   * message of the TypeError the conversion throws.
   */
  function Display(v: Json): (r: Result<string, string>)
    ensures r.Err? <==> RenderingThrows(v)
    ensures r.Err? ==> r.error == ToPrimitiveMessage
    decreases v
  {
    match v
    case JNull => Ok("null")
    case JBool(b) => Ok(if b then "true" else "false")
    case JNumber(n) => Ok(IntToString(n))
    case JString(s) => Ok(s)
    case JObject(fields) => if "toString" in fields then Err(ToPrimitiveMessage) else Ok("[object Object]")
    case JArray(items) =>
      // Array.prototype.toString converts the elements in order, renders
      // null as "" and joins the texts with ","
      var parts := seq(|items|, i requires 0 <= i < |items| =>
                         if items[i].JNull? then Ok("") else Display(items[i]));
      match AllOk(parts)
      case Ok(texts) =>
        assert forall i | 0 <= i < |items| :: parts[i].Ok? && !items[i].JNull? ==> Display(items[i]).Ok?;
        Ok(Join(texts, ","))
      case Err(e) => Err(e)
  }

  /**
   * `!step.id || !step.type || !step.config` evaluated on one element of a
   * step list: `Err` with the TypeError's message when the element is `null`
   * (the read of `id` throws), otherwise whether all three fields are truthy.
   */
  function HasIdTypeConfig(step: Json): (r: Result<bool, string>)
    ensures r.Err? <==> step.JNull?
    ensures r.Ok? ==> (r.value <==> Truthy(Field(step, "id")) && Truthy(Field(step, "type"))
                                     && Truthy(Field(step, "config")))
  {
    match Prop(step, "id")
    case Err(e) => Err(e)
    case Ok(id) => Ok(Truthy(id) && Truthy(Field(step, "type")) && Truthy(Field(step, "config")))
  }
}
