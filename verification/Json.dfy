/**
 JSON values. An object key is a constructor for each key that a modelled function
 looks at, and `OtherKey` for all the rest.
 */
module Json {
  import opened Prelude

  datatype Key =
    | TextKey | ThoughtKey | SignatureKey | CallKey | ResponseKey | InlineKey | FileKey
    | NameKey | ArgsKey | PayloadKey | MimeKey | DataKey | UriKey
    | TypeKey | DeltaKey | ItemKey | ContentKey | PartKey | SummaryKey | OutputKey | ArgumentsKey
    | CallIdKey | IdKey | ModelKey | RespKey | ErrorKey | MessageKey | CodeKey | DetailsKey | ReasonKey | StatusKey
    | OtherKey(name: string)

  datatype Json =
    | Null | Bool(b: bool) | Num(n: real) | Str(s: string)
    | Arr(items: seq<Json>) | Obj(fields: map<Key, Json>)
  {
    /** Python truth. */
    predicate Truthy() {
      match this
      case Null => false
      case Bool(b) => b
      case Num(n) => n != 0.0
      case Str(s) => s != ""
      case Arr(items) => items != []
      case Obj(fields) => fields != map[]
    }
  }

  /** `d.get(k)`: absent reads as null. */
  function Get(d: map<Key, Json>, k: Key): Json {
    if k in d then d[k] else Null
  }

  /** `d.get(k, "")` and the like. */
  function GetOr(d: map<Key, Json>, k: Key, default: Json): Json {
    if k in d then d[k] else default
  }

  /** What a `for` over `j` visits: only objects in it matter to the callers, so a string
      or an object visits nothing; None when it cannot be iterated. */
  function Iterated(j: Json): Option<seq<Json>> {
    match j
    case Arr(items) => Some(items)
    case Str(_) => Some([])
    case Obj(_) => Some([])
    case _ => None
  }

  /** What a `for` over `j or []` visits. */
  function Elements(j: Json): Option<seq<Json>> {
    if j.Truthy() then Iterated(j) else Some([])
  }
}
