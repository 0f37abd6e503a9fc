/**
  HTTP tier (api/api.go): the four request handlers. Each validates what it
  must, calls the service at most once, and maps the service's outcome to a
  response object or hands the error on.
*/
module Api {
  import opened Wrappers
  import S = Service

  /** The service as the handlers see it: one function per operation. */
  datatype Service = Service(
    deleteKeyValue: string -> Option<S.Error>,
    readValue: string -> Fetched<S.Error>,
    createKeyValue: (string, string) -> Option<S.Error>,
    updateValue: (string, string) -> Option<S.Error>)

  /** A JSON body: an object whose `value` field may be missing. */
  datatype Body = Body(value: Option<string>)

  /** A request carrying only the `key` path parameter (read, delete). */
  datatype KeyRequest = KeyRequest(key: string)

  /** A request carrying the `key` path parameter and an optional body (create, update). */
  datatype KeyValueRequest = KeyValueRequest(key: string, body: Option<Body>)

  /** The key and value a create or update request passes on to the service. */
  datatype Args = Args(key: string, value: string)

  datatype CreateKeyValueResponse = CreateKeyValue201 | CreateKeyValue400 | CreateKeyValue409
  datatype ReadValueResponse = ReadValue200(value: string) | ReadValue404
  datatype UpdateValueResponse = UpdateValue204 | UpdateValue400 | UpdateValue404
  datatype DeleteKeyValueResponse = DeleteKeyValue204 | DeleteKeyValue404

  /**
    What a handler returns: a response object and no error, or no response
    object and an error. Go's pair admits the other two combinations; no
    handler produces them.
  */
  datatype Handled<+R> = Respond(response: R) | Propagate(err: S.Error)

  /** The `value` field of an optional body, if both are there. */
  function BodyValue(body: Option<Body>): Option<string> {
    match body
    case None => None
    case Some(b) => b.value
  }

  /** Validation shared by create and update: a `value` in the body and a non-empty key. */
  function Validate(request: KeyValueRequest): (a: Option<Args>)
    ensures a.Some? <==> BodyValue(request.body).Some? && request.key != ""
    ensures a.Some? ==> a.value == Args(request.key, BodyValue(request.body).value)
  {
    if BodyValue(request.body).None? then None
    else if request.key == "" then None
    else Some(Args(request.key, BodyValue(request.body).value))
  }

  /** The HTTP server's request handlers, over the service it was given. */
  datatype Server = Server(service: Service) {

    /** DELETE: no validation; the key, even "", goes straight to the service. */
    function DeleteKeyValue(request: KeyRequest): (r: Handled<DeleteKeyValueResponse>)
      ensures service.deleteKeyValue(request.key).None? ==> r == Respond(DeleteKeyValue204)
      ensures service.deleteKeyValue(request.key).Some? && service.deleteKeyValue(request.key).value.ResourceNotFound? ==>
        r == Respond(DeleteKeyValue404)
      ensures service.deleteKeyValue(request.key).Some? && !service.deleteKeyValue(request.key).value.ResourceNotFound? ==>
        r == Propagate(service.deleteKeyValue(request.key).value)
    {
      match service.deleteKeyValue(request.key)
      case None => Respond(DeleteKeyValue204)
      case Some(err) =>
        if err.ResourceNotFound? then Respond(DeleteKeyValue404) else Propagate(err)
    }

    /** GET: no validation; a success carries exactly the service's value. */
    function ReadValue(request: KeyRequest): (r: Handled<ReadValueResponse>)
      ensures service.readValue(request.key).err.None? ==> r == Respond(ReadValue200(service.readValue(request.key).value))
      ensures service.readValue(request.key).err.Some? && service.readValue(request.key).err.value.ResourceNotFound? ==>
        r == Respond(ReadValue404)
      ensures service.readValue(request.key).err.Some? && !service.readValue(request.key).err.value.ResourceNotFound? ==>
        r == Propagate(service.readValue(request.key).err.value)
    {
      var got := service.readValue(request.key);
      match got.err
      case None => Respond(ReadValue200(got.value))
      case Some(err) =>
        if err.ResourceNotFound? then Respond(ReadValue404) else Propagate(err)
    }

    /** PUT (create): 400 without calling the service when the request is malformed. */
    function CreateKeyValue(request: KeyValueRequest): (r: Handled<CreateKeyValueResponse>)
      ensures Validate(request).None? ==> r == Respond(CreateKeyValue400)
      ensures Validate(request).Some? ==>
        var out := service.createKeyValue(request.key, Validate(request).value.value);
        && (out.None? ==> r == Respond(CreateKeyValue201))
        && (out.Some? && out.value.ResourceExists? ==> r == Respond(CreateKeyValue409))
        && (out.Some? && !out.value.ResourceExists? ==> r == Propagate(out.value))
    {
      match Validate(request)
      case None => Respond(CreateKeyValue400)
      case Some(args) =>
        match service.createKeyValue(args.key, args.value)
        case None => Respond(CreateKeyValue201)
        case Some(err) =>
          if err.ResourceExists? then Respond(CreateKeyValue409) else Propagate(err)
    }

    /** PATCH (update): 400 without calling the service when the request is malformed. */
    function UpdateValue(request: KeyValueRequest): (r: Handled<UpdateValueResponse>)
      ensures Validate(request).None? ==> r == Respond(UpdateValue400)
      ensures Validate(request).Some? ==>
        var out := service.updateValue(request.key, Validate(request).value.value);
        && (out.None? ==> r == Respond(UpdateValue204))
        && (out.Some? && out.value.ResourceNotFound? ==> r == Respond(UpdateValue404))
        && (out.Some? && !out.value.ResourceNotFound? ==> r == Propagate(out.value))
    {
      match Validate(request)
      case None => Respond(UpdateValue400)
      case Some(args) =>
        match service.updateValue(args.key, args.value)
        case None => Respond(UpdateValue204)
        case Some(err) =>
          if err.ResourceNotFound? then Respond(UpdateValue404) else Propagate(err)
    }
  }
}
