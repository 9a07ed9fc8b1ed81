/** JSON documents, the content tags that guard conditional writes, and what
    the environment supplies. */
module Documents {
  import opened ByteOrder

  type Collection = string
  type Id = string
  type Field = string
  type Token = string

  /** A decoded JSON value. A number carries the text Go prints for it; arrays and objects
      appear only through their printed form. */
  datatype Value =
    | Str(s: string)
    | Bool(b: bool)
    | Num(n: real, shown: string)
    | NotANumber(shown: string)
    | Null
    | Other(shown: string)

  type Doc = map<Field, Value>

  /** A request body: text that is no JSON, the JSON `null`, other JSON that is no object, or an
      object's fields. */
  datatype Body = Malformed | NullText | NotObject | Object(fields: Doc)

  /** A patch body is decoded into a map, and `null` decodes into the empty one. */
  predicate Mergeable(b: Body) { b.Object? || b.NullText? }

  function Patched(b: Body): Doc
    requires Mergeable(b)
  {
    if b.Object? then b.fields else map[]
  }

  function EncodeIndexValue(v: Value): string {
    match v
    case Str(s) => "s:" + s
    case Bool(b) => if b then "b:true" else "b:false"
    case Num(_, shown) => "n:" + shown
    case NotANumber(shown) => "n:" + shown
    case Null => "z:null"
    case Other(shown) => "u:" + shown
  }

  /** A content tag. The source hashes the content; a tag here is the content itself, as
      if the hash told all contents that occur apart; ETagHeader says what that takes. */
  datatype ETag = ETag(content: Doc)

  function ComputeETag(d: Doc): ETag { ETag(d) }

  /** One comma-separated piece of a precondition header. */
  datatype Tag = AnyTag | Exactly(etag: ETag) | BadTag

  /** The precondition of a write: the empty string, the literal "*", or a tag list. */
  datatype Expected = Unconditional | Star | Tags(tags: seq<Tag>)

  /** What `matchETags` decides; module ETagHeader has its loop and the header text. */
  predicate Matches(current: Doc, expected: Expected) {
    match expected
    case Unconditional => false
    case Star => true
    case Tags(tags) => AnyTag in tags || Exactly(ComputeETag(current)) in tags
  }

  predicate PreconditionFails(current: Doc, expected: Expected) {
    expected != Unconditional && !Matches(current, expected)
  }

  datatype Error = InvalidName | InvalidJson | Rejected | NotFound | PreconditionFailed | Exhausted | InvalidTransaction
    | AlreadyExists | BuildInProgress | NotBuilding | QueryLimit

  /** What the engine takes from outside: the tokens of a document under a field list and of a
      query (module Tokens builds them), and whether a document passes the size limit and the
      collection's schema. */
  datatype Rules = Rules(
    docTokens: (Doc, seq<Field>) -> set<Token>,
    queryTokens: string -> set<Token>,
    accepts: (Collection, Doc) -> bool
  )
}
