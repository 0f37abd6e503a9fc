/**
  The three tiers wired together as the program does it: the repository is the
  service's storage, and the service is the HTTP server's service. A request is
  served against the table as it stands; the table afterwards is the table the
  one repository call left behind, or the same table when no call was made.
*/
module Pipeline {
  import opened Wrappers
  import Repo
  import Service
  import opened Api

  /** The storage capability as the repository answers it from table `t`. */
  function Storage(t: Repo.Table, e: Repo.Engine): Service.RepoStorage {
    Service.RepoStorage(
      key => Repo.DeleteOutcome(t, key, e).err,
      key => Repo.GetOutcome(t, key, e),
      (key, value) => Repo.CreateOutcome(t, key, value, e).err,
      (key, value) => Repo.UpdateOutcome(t, key, value, e).err)
  }

  /** The service state handed to the HTTP server as its service. */
  function Wire(s: Service.State): Api.Service {
    Api.Service(
      key => s.DeleteKeyValue(key),
      key => s.ReadValue(key),
      (key, value) => s.CreateKeyValue(key, value),
      (key, value) => s.UpdateValue(key, value))
  }

  /** The HTTP server of the running program, over table `t`. */
  function ServerAt(t: Repo.Table, e: Repo.Engine): Server {
    Server(Wire(Service.State(Storage(t, e))))
  }

  datatype Request =
    | Create(kv: KeyValueRequest)
    | Read(k: KeyRequest)
    | Update(kv: KeyValueRequest)
    | Delete(k: KeyRequest)

  datatype Reply =
    | CreateReply(created: Handled<CreateKeyValueResponse>)
    | ReadReply(read: Handled<ReadValueResponse>)
    | UpdateReply(updated: Handled<UpdateValueResponse>)
    | DeleteReply(deleted: Handled<DeleteKeyValueResponse>)

  /** The key a request names. */
  function Key(request: Request): string {
    match request
    case Create(r) => r.key
    case Read(r) => r.key
    case Update(r) => r.key
    case Delete(r) => r.key
  }

  /**
    The HTTP status a reply is sent with. A propagated error is answered by the
    surrounding HTTP framework as an internal error.
  */
  function Status(reply: Reply): int {
    match reply
    case CreateReply(Respond(CreateKeyValue201)) => 201
    case CreateReply(Respond(CreateKeyValue400)) => 400
    case CreateReply(Respond(CreateKeyValue409)) => 409
    case ReadReply(Respond(ReadValue200(_))) => 200
    case ReadReply(Respond(ReadValue404)) => 404
    case UpdateReply(Respond(UpdateValue204)) => 204
    case UpdateReply(Respond(UpdateValue400)) => 400
    case UpdateReply(Respond(UpdateValue404)) => 404
    case DeleteReply(Respond(DeleteKeyValue204)) => 204
    case DeleteReply(Respond(DeleteKeyValue404)) => 404
    case CreateReply(Propagate(_)) => 500
    case ReadReply(Propagate(_)) => 500
    case UpdateReply(Propagate(_)) => 500
    case DeleteReply(Propagate(_)) => 500
  }

  datatype Step = Step(reply: Reply, table: Repo.Table)

  /**
    Serves one request against table `t`. Only the record the request names can
    change; reads and rejected requests change nothing; and since the storage
    tier never reports `KeyExists`, no request is ever answered 409.
  */
  function Serve(t: Repo.Table, request: Request, e: Repo.Engine): (s: Step)
    ensures Repo.AgreeExcept(t, s.table, Key(request))
    ensures request.Read? ==> s.table == t
    ensures Status(s.reply) == 400 <==> (request.Create? || request.Update?) && Validate(request.kv).None?
    ensures Status(s.reply) == 400 ==> s.table == t
    ensures Status(s.reply) != 409
    ensures Status(s.reply) != 201 && Status(s.reply) != 204 ==> s.table == t
    ensures request.Create? && Validate(request.kv).Some? ==>
      var a := Validate(request.kv).value;
      && (Status(s.reply) == 201 <==> a.key !in t && e.statement.None?)
      && (Status(s.reply) == 201 ==> s.table == t[a.key := a.value])
    ensures request.Update? && Validate(request.kv).Some? ==>
      var a := Validate(request.kv).value;
      && (Status(s.reply) == 204 <==> a.key in t && e.statement.None?)
      && (Status(s.reply) == 204 ==> s.table == t[a.key := a.value])
    ensures request.Delete? ==>
      && (Status(s.reply) == 204 <==> request.k.key in t && e.statement.None?)
      && (Status(s.reply) == 204 ==> s.table == t - {request.k.key})
      && (request.k.key !in t && e.statement.None? ==> Status(s.reply) == 404)
    ensures request.Read? ==>
      && (Status(s.reply) == 200 <==> request.k.key in t && e == Repo.Healthy)
      && (Status(s.reply) == 200 ==> s.reply == ReadReply(Respond(ReadValue200(t[request.k.key]))))
      && (request.k.key !in t && e.statement.None? ==> Status(s.reply) == 404)
  {
    var server := ServerAt(t, e);
    match request
    case Create(r) =>
      var table := match Validate(r)
        case None => t
        case Some(a) => Repo.CreateOutcome(t, a.key, a.value, e).table;
      Step(CreateReply(server.CreateKeyValue(r)), table)
    case Read(r) =>
      Step(ReadReply(server.ReadValue(r)), t)
    case Update(r) =>
      var table := match Validate(r)
        case None => t
        case Some(a) => Repo.UpdateOutcome(t, a.key, a.value, e).table;
      Step(UpdateReply(server.UpdateValue(r)), table)
    case Delete(r) =>
      Step(DeleteReply(server.DeleteKeyValue(r)), Repo.DeleteOutcome(t, r.key, e).table)
  }

  /**
    Over the real repository, the service's test for `KeyExists` never
    succeeds: a create fails only with a wrapped storage error.
  */
  lemma CreateNeverResourceExists(t: Repo.Table, key: string, value: string, e: Repo.Engine)
    ensures var r := Service.State(Storage(t, e)).CreateKeyValue(key, value);
      r.None? || (r.value.RepoError? && r.value.err.Storage?)
  {
  }

  /**
    Over the real repository, updating a missing key returns the storage
    tier's own `KeyNotFound`, not the service's `ResourceNotFound`.
  */
  lemma UpdateMissingLeaksKeyNotFound(t: Repo.Table, key: string, value: string, e: Repo.Engine)
    requires key !in t && e.statement.None?
    ensures Service.State(Storage(t, e)).UpdateValue(key, value) == Some(Service.RepoTier(Repo.KeyNotFound(key)))
  {
  }

  /** A well-formed create or update request for `key` with `value`. */
  function Put(key: string, value: string): KeyValueRequest {
    KeyValueRequest(key, Some(Body(Some(value))))
  }

  /**
    Creating a key that exists ends as a propagated storage error, answered
    500, not as 409: the engine's constraint violation is wrapped by the
    repository, then wrapped again by the service.
  */
  lemma DuplicateCreateIsInternalError(t: Repo.Table, key: string, value: string)
    requires key in t && key != ""
    ensures var s := Serve(t, Create(Put(key, value)), Repo.Healthy);
      && s.reply == CreateReply(Propagate(Service.RepoError(Repo.Storage(Repo.InsertPair, Repo.UniqueConstraint(key)))))
      && Status(s.reply) == 500
      && s.table == t
  {
  }

  /**
    Updating a key that does not exist ends as a propagated error, answered
    500, not as 404: the service hands up the storage tier's `KeyNotFound`,
    which the handler's test for `ResourceNotFound` does not match.
  */
  lemma UpdateMissingIsInternalError(t: Repo.Table, key: string, value: string)
    requires key !in t && key != ""
    ensures var s := Serve(t, Update(Put(key, value)), Repo.Healthy);
      && s.reply == UpdateReply(Propagate(Service.RepoTier(Repo.KeyNotFound(key))))
      && Status(s.reply) == 500
      && s.table == t
  {
  }

  /** One call of a trace: the request and how the engine behaves while serving it. */
  datatype Call = Call(request: Request, engine: Repo.Engine)

  datatype Trace = Trace(replies: seq<Reply>, table: Repo.Table)

  /** Serves the calls one after another, each against the table the previous one left. */
  function Run(t: Repo.Table, calls: seq<Call>): (out: Trace)
    ensures |out.replies| == |calls|
    decreases |calls|
  {
    if calls == [] then Trace([], t)
    else
      var step := Serve(t, calls[0].request, calls[0].engine);
      var rest := Run(step.table, calls[1..]);
      Trace([step.reply] + rest.replies, rest.table)
  }

  /**
    What a trace computes: the reply to each call is that call served against
    the table the calls before it left, and the final table is the one the
    last call leaves.
  */
  lemma {:induction false} RunServesInOrder(t: Repo.Table, calls: seq<Call>)
    ensures forall i :: 0 <= i < |calls| ==>
      Run(t, calls).replies[i] == Serve(Run(t, calls[..i]).table, calls[i].request, calls[i].engine).reply
    ensures calls != [] ==>
      var last := calls[|calls| - 1];
      Run(t, calls).table == Serve(Run(t, calls[..|calls| - 1]).table, last.request, last.engine).table
    decreases |calls|
  {
    if calls != [] {
      var step := Serve(t, calls[0].request, calls[0].engine);
      var rest := calls[1..];
      RunServesInOrder(step.table, rest);
      forall i | 0 <= i < |calls|
        ensures Run(t, calls).replies[i] == Serve(Run(t, calls[..i]).table, calls[i].request, calls[i].engine).reply
      {
        if i == 0 {
          assert calls[..0] == [];
        } else {
          assert calls[..i][0] == calls[0];
          assert calls[..i][1..] == rest[..i - 1];
          assert rest[i - 1] == calls[i];
        }
      }
      if |calls| == 1 {
        assert calls[..0] == [];
      } else {
        assert calls[..|calls| - 1][0] == calls[0];
        assert calls[..|calls| - 1][1..] == rest[..|rest| - 1];
        assert rest[|rest| - 1] == calls[|calls| - 1];
      }
    }
  }

  /** A record that no call of a trace names is exactly as it was before the trace. */
  lemma {:induction false} RunLeavesOtherKeys(t: Repo.Table, calls: seq<Call>, key: string)
    requires forall i :: 0 <= i < |calls| ==> Key(calls[i].request) != key
    ensures key in Run(t, calls).table <==> key in t
    ensures key in t ==> Run(t, calls).table[key] == t[key]
    decreases |calls|
  {
    if calls != [] {
      var step := Serve(t, calls[0].request, calls[0].engine);
      var named := Key(calls[0].request);
      assert key in t - {named} <==> key in step.table - {named};
      RunLeavesOtherKeys(step.table, calls[1..], key);
    }
  }

  /** No reply of any trace is a 409, whatever the requests and the engine do. */
  lemma {:induction false} RunNeverConflicts(t: Repo.Table, calls: seq<Call>)
    ensures forall i :: 0 <= i < |calls| ==> Status(Run(t, calls).replies[i]) != 409
    decreases |calls|
  {
    if calls != [] {
      var step := Serve(t, calls[0].request, calls[0].engine);
      RunNeverConflicts(step.table, calls[1..]);
      assert Run(t, calls).replies == [step.reply] + Run(step.table, calls[1..]).replies;
    }
  }

  /**
    The end-to-end sequence create, read, create again, delete, read on a key
    `a` the table does not hold, each request served against the table the
    previous one left: 201, 200 with the value, then 500 (not 409) for the
    duplicate, 204, and 404, ending with the table it started from.
  */
  lemma CreateReadDuplicateDeleteRead(t: Repo.Table, a: string, v: string)
    requires a !in t && a != ""
    ensures Serve(t, Create(Put(a, v)), Repo.Healthy) == Step(CreateReply(Respond(CreateKeyValue201)), t[a := v])
    ensures Serve(t[a := v], Read(KeyRequest(a)), Repo.Healthy) == Step(ReadReply(Respond(ReadValue200(v))), t[a := v])
    ensures var s := Serve(t[a := v], Create(Put(a, v)), Repo.Healthy); Status(s.reply) == 500 && s.table == t[a := v]
    ensures Serve(t[a := v], Delete(KeyRequest(a)), Repo.Healthy) == Step(DeleteReply(Respond(DeleteKeyValue204)), t)
    ensures Serve(t, Read(KeyRequest(a)), Repo.Healthy) == Step(ReadReply(Respond(ReadValue404)), t)
  {
    assert t[a := v] - {a} == t;
  }

  /**
    A malformed create or update (no value, or an empty key) is answered 400
    and stores nothing: a later read of the key still finds nothing.
  */
  lemma MalformedStoresNothing(t: Repo.Table, request: KeyValueRequest, asUpdate: bool)
    requires request.key !in t
    requires Validate(request).None?
    ensures var s := Serve(t, if asUpdate then Update(request) else Create(request), Repo.Healthy);
      && Status(s.reply) == 400
      && Serve(s.table, Read(KeyRequest(request.key)), Repo.Healthy).reply == ReadReply(Respond(ReadValue404))
  {
  }
}
