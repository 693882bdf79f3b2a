/** Kubernetes objects as the trees JSON decodes into. */
module Objects {
  import opened Options

  datatype Value =
    | Null
    | Bool(on: bool)
    | Int(number: int)
    | Float(amount: real)
    | Str(text: string)
    | List(items: seq<Value>)
    | Obj(fields: map<string, Value>)

  const LAST_APPLIED := "kubectl.kubernetes.io/last-applied-configuration"

  /** The field at a path of keys; anything that is not an object on the way has none. */
  function FieldAt(value: Value, path: seq<string>): Option<Value> {
    if path == [] then Some(value)
    else if value.Obj? && path[0] in value.fields then FieldAt(value.fields[path[0]], path[1..])
    else None
  }

  /** An object with one field removed, left alone when the path does not lead anywhere. */
  function Without(value: Value, path: seq<string>): Value {
    if path == [] || !value.Obj? || path[0] !in value.fields then value
    else if |path| == 1 then Obj(value.fields - {path[0]})
    else Obj(value.fields[path[0] := Without(value.fields[path[0]], path[1..])])
  }

  function TextOf(value: Value): string {
    if value.Str? then value.text else ""
  }

  predicate Readable(annotations: map<string, Value>) {
    forall key | key in annotations :: annotations[key].Str? || annotations[key].Null?
  }

  /** The annotations of an object: none at all when one of them is neither text nor null, and
      a null reads as the empty text. */
  function Annotations(root: Value): Option<map<string, string>> {
    match FieldAt(root, ["metadata", "annotations"])
    case Some(Obj(fields)) =>
      if Readable(fields) then Some(map key | key in fields :: TextOf(fields[key])) else None
    case _ => None
  }

  /** A text field of the metadata, such as the name; empty where there is none. */
  function MetadataText(root: Value, key: string): string {
    match FieldAt(root, ["metadata", key])
    case Some(Str(text)) => text
    case _ => ""
  }
}
