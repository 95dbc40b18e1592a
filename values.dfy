/** The dynamically typed values stored in the workflow's metadata dictionaries. */
module Values {

  datatype Value =
    | VNone
    | VBool(b: bool)
    | VInt(i: int)
    | VStr(s: string)
    | VList(items: seq<Value>)
    | VDict(entries: map<string, Value>)

  /** Python's `type(v).__name__`, as it appears in an AttributeError message. */
  function TypeName(v: Value): string {
    match v
    case VNone => "NoneType"
    case VBool(_) => "bool"
    case VInt(_) => "int"
    case VStr(_) => "str"
    case VList(_) => "list"
    case VDict(_) => "dict"
  }

  /** A file write through `save_artifact`: the text and the path it goes to. */
  datatype Artifact = Artifact(path: string, content: string)
}
