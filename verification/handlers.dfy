/** The pure parts of the lab03 HTTP handlers: the status-description table,
    the status-code endpoint, and the status each message endpoint answers
    for each outcome of parsing, validation and storage. Parsing (JSON bodies,
    `strconv.Atoi` on path ids), the request validator and the message storage
    are inputs: an absent parse is `None`, a validator is a function to an
    optional error message, and storage calls are oracles. The stored message
    type is a type parameter. */
module Handlers {
  import opened Wrappers
  import opened Text

  const StatusOK: int := 200
  const StatusCreated: int := 201
  const StatusNoContent: int := 204
  const StatusBadRequest: int := 400
  const StatusUnauthorized: int := 401
  const StatusNotFound: int := 404
  const StatusInternalServerError: int := 500

  datatype HTTPStatusResponse = HTTPStatusResponse(statusCode: int, imageUrl: string, description: string)

  /** The body written: `writeError`'s error payload, a success payload with
      a message or a status, or nothing (204). */
  datatype Body<M> = ErrorBody(error: string) | MessageBody(message: M) | StatusBody(status: HTTPStatusResponse) | NoBody

  datatype Response<M> = Response(status: int, body: Body<M>)

  datatype CreateMessageRequest = CreateMessageRequest(username: string, content: string)
  datatype UpdateMessageRequest = UpdateMessageRequest(content: string)

  /** The codes with a description of their own. */
  const DescribedCodes: set<int> := {200, 201, 204, 400, 401, 404, 500}

  /** `getHTTPStatusDescription`. */
  function StatusDescription(code: int): (d: string)
    ensures code == 200 ==> d == "OK"
    ensures code == 201 ==> d == "Created"
    ensures code == 204 ==> d == "No Content"
    ensures code == 400 ==> d == "Bad Request"
    ensures code == 401 ==> d == "Unauthorized"
    ensures code == 404 ==> d == "Not Found"
    ensures code == 500 ==> d == "Internal Server Error"
    ensures d == "Unknown Status" <==> code !in DescribedCodes
  {
    match code
    case 200 => "OK"
    case 201 => "Created"
    case 204 => "No Content"
    case 400 => "Bad Request"
    case 401 => "Unauthorized"
    case 404 => "Not Found"
    case 500 => "Internal Server Error"
    case _ => "Unknown Status"
  }

  const HttpCatPrefix: string := "https://http.cat/"

  /** `GetHTTPStatus`: a code that did not parse or lies outside 100..599 is a
      400; otherwise a 200 carrying the code, its http.cat image and its
      description. */
  function GetHTTPStatus<M>(code: Option<int>): (r: Response<M>)
    ensures r.status == StatusBadRequest <==> code.None? || code.value < 100 || code.value > 599
    ensures r.status == StatusBadRequest ==> r.body == ErrorBody("Invalid HTTP status code")
    ensures r.status != StatusBadRequest ==>
      && r.status == StatusOK && r.body.StatusBody?
      && r.body.status.statusCode == code.value
      && r.body.status.description == StatusDescription(code.value)
      && r.body.status.imageUrl == HttpCatPrefix + Decimal(code.value)
  {
    match code
    case None => Response(StatusBadRequest, ErrorBody("Invalid HTTP status code"))
    case Some(c) =>
      if c < 100 || c > 599 then Response(StatusBadRequest, ErrorBody("Invalid HTTP status code"))
      else Response(StatusOK, StatusBody(HTTPStatusResponse(c, HttpCatPrefix + Decimal(c), StatusDescription(c))))
  }

  /** The image URL ends in the three digits of the code, and reading them
      back gives the code. */
  lemma ImageUrlNamesCode<M>(code: int)
    requires 100 <= code <= 599
    ensures var url := GetHTTPStatus<M>(Some(code)).body.status.imageUrl;
      && |url| == |HttpCatPrefix| + 3
      && url[..|HttpCatPrefix|] == HttpCatPrefix
      && DecimalValue(url[|HttpCatPrefix|..]) == code
  {
    DecimalThreeDigits(code);
    DecimalRoundTrip(code);
    var url := HttpCatPrefix + Decimal(code);
    assert url[|HttpCatPrefix|..] == Decimal(code);
  }

  /** `CreateMessage`: a body that does not parse or has empty content is a
      400 before storage is called; a storage failure is a 500; success is a
      201 with the created message. */
  function CreateMessage<M>(req: Option<CreateMessageRequest>, create: (string, string) -> Result<M, string>): (r: Response<M>)
    ensures req.None? ==> r == Response(StatusBadRequest, ErrorBody("Invalid request payload"))
    ensures req.Some? && req.value.content == "" ==>
      r == Response(StatusBadRequest, ErrorBody("Message content cannot be empty"))
    ensures req.Some? && req.value.content != "" ==>
      match create(req.value.username, req.value.content)
      case Ok(m) => r == Response(StatusCreated, MessageBody(m))
      case Err(_) => r == Response(StatusInternalServerError, ErrorBody("Failed to create message"))
  {
    match req
    case None => Response(StatusBadRequest, ErrorBody("Invalid request payload"))
    case Some(q) =>
      if q.content == "" then Response(StatusBadRequest, ErrorBody("Message content cannot be empty"))
      else match create(q.username, q.content)
        case Err(_) => Response(StatusInternalServerError, ErrorBody("Failed to create message"))
        case Ok(m) => Response(StatusCreated, MessageBody(m))
  }

  /** Empty content never reaches storage: any two storages give the same answer. */
  lemma CreateEmptyIgnoresStorage<M>(username: string, create1: (string, string) -> Result<M, string>, create2: (string, string) -> Result<M, string>)
    ensures CreateMessage(Some(CreateMessageRequest(username, "")), create1)
         == CreateMessage(Some(CreateMessageRequest(username, "")), create2)
  {
  }

  /** `UpdateMessage`: a bad id, then a bad body, then a validation error are
      400s; a storage failure is a 404; success is a 200 with the message. */
  function UpdateMessage<M>(
    id: Option<int>,
    req: Option<UpdateMessageRequest>,
    validate: UpdateMessageRequest -> Option<string>,
    update: (int, string) -> Result<M, string>): (r: Response<M>)
    ensures id.None? ==> r == Response(StatusBadRequest, ErrorBody("Invalid message ID"))
    ensures id.Some? && req.None? ==> r == Response(StatusBadRequest, ErrorBody("Invalid request payload"))
    ensures id.Some? && req.Some? && validate(req.value).Some? ==>
      r == Response(StatusBadRequest, ErrorBody(validate(req.value).value))
    ensures id.Some? && req.Some? && validate(req.value).None? ==>
      match update(id.value, req.value.content)
      case Ok(m) => r == Response(StatusOK, MessageBody(m))
      case Err(_) => r == Response(StatusNotFound, ErrorBody("Message not found"))
  {
    match id
    case None => Response(StatusBadRequest, ErrorBody("Invalid message ID"))
    case Some(i) =>
      match req
      case None => Response(StatusBadRequest, ErrorBody("Invalid request payload"))
      case Some(q) =>
        match validate(q)
        case Some(msg) => Response(StatusBadRequest, ErrorBody(msg))
        case None =>
          match update(i, q.content)
          case Err(_) => Response(StatusNotFound, ErrorBody("Message not found"))
          case Ok(m) => Response(StatusOK, MessageBody(m))
  }

  /** `DeleteMessage`: a bad id is a 400, a storage failure a 404, success a
      204 with no body. */
  function DeleteMessage<M>(id: Option<int>, delete: int -> Outcome<string>): (r: Response<M>)
    ensures id.None? ==> r == Response(StatusBadRequest, ErrorBody("Invalid message ID"))
    ensures id.Some? && delete(id.value).Fail? ==> r == Response(StatusNotFound, ErrorBody("Message not found"))
    ensures id.Some? && delete(id.value) == Pass ==> r == Response(StatusNoContent, NoBody)
  {
    match id
    case None => Response(StatusBadRequest, ErrorBody("Invalid message ID"))
    case Some(i) =>
      match delete(i)
      case Fail(_) => Response(StatusNotFound, ErrorBody("Message not found"))
      case Pass => Response(StatusNoContent, NoBody)
  }

  /** Every status the message and status endpoints answer with has a
      description of its own in the table. */
  lemma AnsweredStatusesAreDescribed<M>(
    code: Option<int>,
    createReq: Option<CreateMessageRequest>, create: (string, string) -> Result<M, string>,
    id: Option<int>, updateReq: Option<UpdateMessageRequest>,
    validate: UpdateMessageRequest -> Option<string>, update: (int, string) -> Result<M, string>,
    delete: int -> Outcome<string>)
    ensures GetHTTPStatus<M>(code).status in DescribedCodes
    ensures CreateMessage(createReq, create).status in DescribedCodes
    ensures UpdateMessage(id, updateReq, validate, update).status in DescribedCodes
    ensures DeleteMessage<M>(id, delete).status in DescribedCodes
  {
  }
}
