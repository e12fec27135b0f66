/** JavaScript values as the pipeline handles them after `JSON.parse`, and the
    language rules its decisions depend on: truthiness, property reads (which
    throw on `null` and `undefined`), `typeof`, string conversion in template
    literals, `Array.prototype.join` and `Number` coercion. */
module Js {
  import opened Wrappers
  import opened Strings

  datatype Value =
    | Null
    | Bool(b: bool)
    | Number(n: real)
    | NaN
    | Str(s: string)
    | Arr(items: seq<Value>)
    | Obj(fields: map<string, Value>)

  /** The result of reading a property: `None` is `undefined`. */
  type Prop = Option<Value>

  /** What a `throw` carries: an `Error` with its message, or some other value. */
  datatype Thrown = Error(message: string) | NonError

  /** Built-ins of the host that the model treats as given functions. */
  datatype Host = Host(
    parse: string -> Option<Value>,     // JSON.parse; None when it throws
    stringify: Value -> string,         // JSON.stringify(v)
    stringifyPretty: Value -> string,   // JSON.stringify(v, null, 2)
    numberToString: real -> string,     // String(n) for a finite number
    stringToNumber: string -> Value,    // Number(s): a Number or NaN
    typeErrorMessage: string)           // message of an engine TypeError

  /** The TypeError the engine throws for a property read on null/undefined
      or a call of a missing method. */
  function TypeError(host: Host): Thrown {
    Error(host.typeErrorMessage)
  }

  /** `error instanceof Error ? error.message : fallback`. */
  function MessageOr(e: Thrown, fallback: string): (m: string)
    ensures e.Error? ==> m == e.message
    ensures e.NonError? ==> m == fallback
  {
    match e
    case Error(msg) => msg
    case NonError => fallback
  }

  /** Values `JSON.parse` can produce: no NaN anywhere. */
  predicate IsJson(v: Value) {
    match v
    case NaN => false
    case Arr(items) => forall i :: 0 <= i < |items| ==> IsJson(items[i])
    case Obj(fields) => forall k :: k in fields ==> IsJson(fields[k])
    case _ => true
  }

  /** `JSON.parse` only ever yields JSON values. */
  ghost predicate ParserSound(host: Host) {
    forall s :: host.parse(s).Some? ==> IsJson(host.parse(s).value)
  }

  /** `JSON.parse` reads the three literals the pipeline substitutes for an
      empty reply as the values JSON gives them. */
  predicate ParsesDefaults(host: Host) {
    && host.parse("{}") == Some(Obj(map[]))
    && host.parse("[]") == Some(Arr([]))
    && host.parse("{\"cards\":[]}") == Some(Obj(map["cards" := Arr([])]))
  }

  /** ECMAScript ToBoolean of a property value. */
  predicate Truthy(p: Prop) {
    match p
    case None => false
    case Some(v) =>
      match v
      case Null => false
      case Bool(b) => b
      case Number(n) => n != 0.0
      case NaN => false
      case Str(s) => s != ""
      case _ => true
  }

  /** `typeof v === "number"`. */
  predicate IsNumber(p: Prop) {
    p.Some? && (p.value.Number? || p.value.NaN?)
  }

  /** `typeof v === "object"` (arrays and null included). */
  predicate IsObjectType(p: Prop) {
    p.Some? && (p.value.Null? || p.value.Arr? || p.value.Obj?)
  }

  /** `Array.isArray(v)`. */
  predicate IsArray(p: Prop) {
    p.Some? && p.value.Arr?
  }

  /** Reading a data property (none of the keys read here is inherited from a
      prototype): `None` when the read throws, that is on null and undefined. */
  function Member(p: Prop, key: string): (r: Option<Prop>)
    ensures r.None? <==> (p.None? || p.value.Null?)
    ensures p.Some? && p.value.Obj? ==>
      r == Some(if key in p.value.fields then Some(p.value.fields[key]) else None)
    ensures p.Some? && !p.value.Obj? && !p.value.Null? ==> r == Some(None)
  {
    match p
    case None => None
    case Some(v) =>
      match v
      case Null => None
      case Obj(f) => Some(if key in f then Some(f[key]) else None)
      case _ => Some(None)
  }

  /** An object literal property: a key whose value is `undefined` is not
      stored (it disappears when the object is serialised). */
  function SetField(fields: map<string, Value>, key: string, p: Prop): (r: map<string, Value>)
    ensures p.Some? ==> key in r && r[key] == p.value
    ensures p.None? ==> key !in r
    ensures forall k :: k != key ==> (k in r <==> k in fields) && (k in r ==> r[k] == fields[k])
  {
    match p
    case Some(v) => fields[key := v]
    case None => fields - {key}
  }

  /** ToString as used by template literals: `${p}`. */
  function TemplateText(p: Prop, host: Host): string
    decreases p, 1
  {
    match p
    case None => "undefined"
    case Some(v) => ValueText(v, host)
  }

  function ValueText(v: Value, host: Host): string
    decreases v, 0
  {
    match v
    case Null => "null"
    case Bool(b) => if b then "true" else "false"
    case Number(n) => host.numberToString(n)
    case NaN => "NaN"
    case Str(s) => s
    case Arr(items) => JoinValues(items, ",", host)
    case Obj(_) => "[object Object]"
  }

  /** `Array.prototype.join(sep)`: null elements become the empty string. */
  function JoinValues(items: seq<Value>, sep: string, host: Host): string
    decreases items
  {
    if |items| == 0 then ""
    else
      var head := if items[0].Null? then "" else ValueText(items[0], host);
      if |items| == 1 then head else head + sep + JoinValues(items[1..], sep, host)
  }

  /** Joining strings only is `Strings.Join` of their texts. */
  lemma {:induction false} JoinOfStrings(items: seq<Value>, sep: string, host: Host)
    requires forall i :: 0 <= i < |items| ==> items[i].Str?
    ensures JoinValues(items, sep, host) == Join(seq(|items|, i requires 0 <= i < |items| => items[i].s), sep)
  {
    if |items| > 1 {
      JoinOfStrings(items[1..], sep, host);
      assert seq(|items| - 1, i requires 0 <= i < |items| - 1 => items[1..][i].s)
          == seq(|items|, i requires 0 <= i < |items| => items[i].s)[1..];
    }
  }

  /** ECMAScript ToNumber: `Number(v)`, NaN when there is no number. */
  function ToNumber(v: Value, host: Host): (r: Value)
    ensures v.Number? ==> r == v
  {
    match v
    case Null => Number(0.0)
    case Bool(b) => Number(if b then 1.0 else 0.0)
    case Number(_) => v
    case NaN => NaN
    case Str(s) => host.stringToNumber(s)
    case Arr(items) => host.stringToNumber(JoinValues(items, ",", host))
    case Obj(_) => NaN
  }
}
