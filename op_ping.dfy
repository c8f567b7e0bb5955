/** The `ping` operation (`v1/op/ping.rs`). */
module PingOps {
  import opened Wrappers
  import opened Json
  import H = Header
  import M = Messages
  import Requests
  import Responses

  const METHOD: string := "ping"

  /** Both ping types are unit structs: they are written as `null` and read only from `null`. */
  datatype PingRequest = PingRequest
  datatype PingResponse = PingResponse

  function EncodeRequest(r: PingRequest): Json { JNull }
  function DecodeRequest(j: Json): (r: Option<PingRequest>)
    ensures r.Some? <==> j == JNull
  {
    if j == JNull then Some(PingRequest) else None
  }

  function EncodeResponse(r: PingResponse): Json { JNull }
  function DecodeResponse(j: Json): (r: Option<PingResponse>)
    ensures r.Some? <==> j == JNull
  {
    if j == JNull then Some(PingResponse) else None
  }

  lemma RoundTrip(r: PingRequest, s: PingResponse)
    ensures DecodeRequest(EncodeRequest(r)) == Some(r)
    ensures DecodeResponse(EncodeResponse(s)) == Some(s)
  {
  }

  /** `PingRequest::default().message()`, as the server's ping loop sends it. */
  function Message(h: H.Header): (m: M.Message)
    ensures M.IsRequest(m) && m.req.request == "ping" && m.req.data == Some(JNull)
  {
    Requests.Message(METHOD, EncodeRequest(PingRequest), h)
  }

  /** `PingResponse::default_ok(request_id)`: the answer to a ping (`PingRequest::Response`). */
  function Reply(requestId: string, h: H.Header): (m: M.Message)
    ensures M.IsResponse(m) && m.res.status == 200 && m.res.response == requestId
    ensures m.res.data == Some(JNull)
  {
    Responses.DefaultOk(requestId, EncodeResponse(PingResponse), h)
  }

  /**
   * The exchange of the serialisation test: the reply built from the ping's
   * id answers that ping. On the wire both carry `"data": null`, which the
   * peer reads as no payload.
   */
  lemma Exchange(hReq: H.Header, hRes: H.Header)
    ensures var req := Message(hReq);
            var res := Reply(M.Id(req), hRes);
            res.res.response == hReq.id
            && M.Decode(M.Encode(req)) == Some(M.Request(M.RequestMessage(hReq, METHOD, None)))
            && M.Decode(M.Encode(res)) == Some(M.Response(M.ResponseMessage(hRes, hReq.id, 200, None)))
  {
    Requests.MessageOnWire(METHOD, JNull, hReq);
    M.RoundTrip(Reply(hReq.id, hRes));
  }

  /** `PingRequest::example()` and `PingResponse::example()`. */
  function ExampleRequest(): PingRequest { PingRequest }
  function ExampleResponse(): PingResponse { PingResponse }
}
