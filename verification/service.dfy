/**
  Service tier (service/service.go): the four operations of the storage tier,
  with their errors re-typed into the service's own vocabulary.

  The service holds nothing but the storage capability it was given, so each
  operation is a function of that capability's answer to the one call the
  operation makes.
*/
module Service {
  import opened Wrappers
  import Repo

  /**
    What a service operation can return as its error. The first three are the
    service's own error types. `RepoError` has no `Unwrap`, so nothing above
    this tier can see the storage error inside it. `RepoTier` is not a service
    type: it is a storage-tier error handed up as it is, which only
    `UpdateValue` does.
  */
  datatype Error =
    | ResourceNotFound(resource: string)
    | ResourceExists(resource: string)
    | RepoError(err: Repo.RepoError)
    | RepoTier(err: Repo.RepoError)

  /** The storage capability the service is built over: one function per operation. */
  datatype RepoStorage = RepoStorage(
    delete: string -> Option<Repo.RepoError>,
    get: string -> Fetched<Repo.RepoError>,
    create: (string, string) -> Option<Repo.RepoError>,
    update: (string, string) -> Option<Repo.RepoError>)

  /** The service: a reference to the storage capability and nothing else. */
  datatype State = State(db: RepoStorage) {

    /** Creates a record; a storage `KeyExists` becomes `ResourceExists`, anything else is wrapped. */
    function CreateKeyValue(key: string, value: string): (r: Option<Error>)
      ensures r.None? <==> db.create(key, value).None?
      ensures db.create(key, value).Some? && db.create(key, value).value.KeyExists? ==>
        r == Some(ResourceExists(key))
      ensures db.create(key, value).Some? && !db.create(key, value).value.KeyExists? ==>
        r == Some(RepoError(db.create(key, value).value))
      ensures r.Some? ==> r.value.ResourceExists? || r.value.RepoError?
    {
      match db.create(key, value)
      case None => None
      case Some(err) =>
        if err.KeyExists? then Some(ResourceExists(key)) else Some(RepoError(err))
    }

    /** Reads a value; a storage `KeyNotFound` becomes `ResourceNotFound`, anything else is wrapped. */
    function ReadValue(key: string): (r: Fetched<Error>)
      ensures db.get(key).err.None? ==> r == Fetched(db.get(key).value, None)
      ensures db.get(key).err.Some? && db.get(key).err.value.KeyNotFound? ==>
        r == Fetched("", Some(ResourceNotFound(key)))
      ensures db.get(key).err.Some? && !db.get(key).err.value.KeyNotFound? ==>
        r == Fetched("", Some(RepoError(db.get(key).err.value)))
      ensures r.err.Some? ==> r.value == "" && (r.err.value.ResourceNotFound? || r.err.value.RepoError?)
    {
      var got := db.get(key);
      match got.err
      case None => Fetched(got.value, None)
      case Some(err) =>
        if err.KeyNotFound? then Fetched("", Some(ResourceNotFound(key)))
        else Fetched("", Some(RepoError(err)))
    }

    /** Updates a value; the storage error, if any, is returned untranslated. */
    function UpdateValue(key: string, value: string): (r: Option<Error>)
      ensures r.None? <==> db.update(key, value).None?
      ensures r.Some? ==> r.value.RepoTier? && r.value.err == db.update(key, value).value
      ensures r.Some? ==> !r.value.ResourceNotFound?
    {
      match db.update(key, value)
      case None => None
      case Some(err) => Some(RepoTier(err))
    }

    /** Deletes a record; a storage `KeyNotFound` becomes `ResourceNotFound`, anything else is wrapped. */
    function DeleteKeyValue(key: string): (r: Option<Error>)
      ensures r.None? <==> db.delete(key).None?
      ensures db.delete(key).Some? && db.delete(key).value.KeyNotFound? ==>
        r == Some(ResourceNotFound(key))
      ensures db.delete(key).Some? && !db.delete(key).value.KeyNotFound? ==>
        r == Some(RepoError(db.delete(key).value))
      ensures r.Some? ==> r.value.ResourceNotFound? || r.value.RepoError?
    {
      match db.delete(key)
      case None => None
      case Some(err) =>
        if err.KeyNotFound? then Some(ResourceNotFound(key)) else Some(RepoError(err))
    }
  }

  /**
    Each operation depends on the storage only through the one matching call,
    made with the operation's own key and value: two services whose storages
    answer that call alike answer alike.
  */
  lemma OnlyTheMatchingCall(s1: State, s2: State, key: string, value: string)
    ensures s1.db.create(key, value) == s2.db.create(key, value) ==>
      s1.CreateKeyValue(key, value) == s2.CreateKeyValue(key, value)
    ensures s1.db.get(key) == s2.db.get(key) ==> s1.ReadValue(key) == s2.ReadValue(key)
    ensures s1.db.update(key, value) == s2.db.update(key, value) ==>
      s1.UpdateValue(key, value) == s2.UpdateValue(key, value)
    ensures s1.db.delete(key) == s2.db.delete(key) ==> s1.DeleteKeyValue(key) == s2.DeleteKeyValue(key)
  {
  }
}
