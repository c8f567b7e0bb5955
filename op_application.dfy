/** The `application_move` operation (`v1/op/application.rs`). */
module ApplicationOps {
  import opened Wrappers
  import opened Json
  import H = Header

  const METHOD: string := "application_move"

  /**
   * `ApplicationMoveRequest`, an externally tagged enum with snake_case
   * variant names: `Next` is written as `"next"`, `Application { id }` as
   * `{"application": {"id": id}}`.
   */
  datatype MoveRequest = Next | Application(id: string)

  /** `ApplicationMoveResponse` is a unit struct. */
  datatype MoveResponse = MoveResponse

  function Encode(r: MoveRequest): Json {
    match r
    case Next => JStr("next")
    case Application(id) => JObj([("application", JObj([("id", JStr(id))]))])
  }

  /**
   * Reading the enum: a bare string names a unit variant; an object with a
   * single key names the variant and holds its content. `"application"` as a
   * bare string lacks its content and is an error, and so is an unknown name.
   */
  function Decode(j: Json): Option<MoveRequest> {
    match j
    case JStr(s) => if s == "next" then Some(Next) else None
    case JObj(fs) =>
      if |fs| != 1 then None
      else if fs[0].0 == "next" then (if fs[0].1 == JNull then Some(Next) else None)
      else if fs[0].0 == "application" then
        (if fs[0].1.JObj? then
           var id := StringField(Field(fs[0].1.fields, {"id"}));
           if id.Some? then Some(Application(id.value)) else None
         else None)
      else None
    case _ => None
  }

  lemma RoundTrip(r: MoveRequest)
    ensures Decode(Encode(r)) == Some(r)
  {
    if r.Application? { FieldUnique([("id", JStr(r.id))], {"id"}, 0); }
  }

  /** The map form `{"next": null}` also reads as `Next`. */
  lemma NextInMapForm()
    ensures Decode(JObj([("next", JNull)])) == Some(Next)
  {
  }

  /** An object that names no variant or more than one is not a move request. */
  lemma OneVariantPerObject(fs: seq<(string, Json)>)
    requires |fs| != 1
    ensures Decode(JObj(fs)).None?
  {
  }

  function EncodeResponse(r: MoveResponse): Json { JNull }
  function DecodeResponse(j: Json): (r: Option<MoveResponse>)
    ensures r.Some? <==> j == JNull
  {
    if j == JNull then Some(MoveResponse) else None
  }

  /** `ApplicationMoveRequest::example()`: move to the example application. */
  function ExampleRequest(): (r: MoveRequest)
    ensures r == Application("VPk_6IQStguK0vJrdJ4mT")
  {
    Application(H.EXAMPLE_RESOURCE_ID)
  }

  function ExampleResponse(): MoveResponse { MoveResponse }
}
