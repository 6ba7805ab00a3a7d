/**
 * The peer service: a metadata map filled in at boot and a reference to the
 * service collection it reaches its collaborators through. Create, Search and
 * Delete are stubs: they return an empty position and keep no registry.
 */
module PeerService {
  import opened Wrappers

  /** A handle on the foreign service collection (identity generator, logger, ...). */
  datatype ServiceCollection = ServiceCollection(handle: nat)

  /** Failures of the peer service. Each one is a panic in the source. */
  datatype Error =
    | NilServiceCollection          // a method reached a collaborator through a nil collection
    | IdError(message: string)      // the identity generator failed during Boot

  /** The metadata Boot assigns for the identity `id`. */
  function BootMetadata(id: string): (m: map<string, string>)
    ensures m.Keys == {"id", "name", "type"}
    ensures m["id"] == id && m["name"] == "position" && m["type"] == "service"
  {
    map["id" := id, "name" := "position", "type" := "service"]
  }

  class Service {
    var serviceCollection: Option<ServiceCollection>
    var metadata: map<string, string>

    /** New: no service collection yet and empty metadata. */
    constructor ()
      ensures serviceCollection == None && metadata == map[]
    {
      serviceCollection := None;
      metadata := map[];
    }

    /** The current metadata map. */
    function Metadata(): (m: map<string, string>)
      reads this
      ensures m == metadata
    {
      metadata
    }

    /** The service collection last set, None while unset. */
    function Service(): (sc: Option<ServiceCollection>)
      reads this
      ensures sc == serviceCollection
    {
      serviceCollection
    }

    /**
     * Boot asks the identity generator for an id (`newId` is that call's
     * outcome) and replaces the metadata. There is no once-guard: every call
     * that obtains an id overwrites the metadata; a call that fails leaves it alone.
     */
    method Boot(newId: Result<string, string>) returns (err: Option<Error>)
      modifies this`metadata
      ensures serviceCollection.None? ==> err == Some(NilServiceCollection) && metadata == old(metadata)
      ensures serviceCollection.Some? && newId.Failure? ==>
        err == Some(IdError(newId.error)) && metadata == old(metadata)
      ensures serviceCollection.Some? && newId.Success? ==>
        err == None && Metadata() == BootMetadata(newId.value)
    {
      if serviceCollection.None? {
        return Some(NilServiceCollection);
      }
      if newId.Failure? {
        return Some(IdError(newId.error));
      }
      metadata := BootMetadata(newId.value);
      err := None;
    }

    /** Create logs and returns an empty position; nothing is stored. */
    method Create(peer: string) returns (position: string, err: Option<Error>)
      ensures serviceCollection.Some? ==> position == "" && err == None
      ensures serviceCollection.None? ==> err == Some(NilServiceCollection)
    {
      position := "";
      err := if serviceCollection.None? then Some(NilServiceCollection) else None;
    }

    /** Delete logs and returns an empty position; nothing is removed. */
    method Delete(peer: string) returns (position: string, err: Option<Error>)
      ensures serviceCollection.Some? ==> position == "" && err == None
      ensures serviceCollection.None? ==> err == Some(NilServiceCollection)
    {
      position := "";
      err := if serviceCollection.None? then Some(NilServiceCollection) else None;
    }

    /** Search logs and returns an empty position, whatever was created before. */
    method Search(peer: string) returns (position: string, err: Option<Error>)
      ensures serviceCollection.Some? ==> position == "" && err == None
      ensures serviceCollection.None? ==> err == Some(NilServiceCollection)
    {
      position := "";
      err := if serviceCollection.None? then Some(NilServiceCollection) else None;
    }

    /** SetServiceCollection: Service() returns sc afterwards; the metadata is untouched. */
    method SetServiceCollection(sc: Option<ServiceCollection>)
      modifies this`serviceCollection
      ensures Service() == sc
    {
      serviceCollection := sc;
    }
  }

  /** Booting twice keeps the second identity: Boot is not guarded to run once. */
  method BootTwice(s: Service, first: string, second: string)
    requires s.serviceCollection.Some?
    modifies s
    ensures s.Metadata() == BootMetadata(second)
    ensures first != second ==> s.Metadata()["id"] != first
  {
    var err := s.Boot(Success(first));
    err := s.Boot(Success(second));
  }

  /** Creating a position and then searching for it finds nothing: there is no registry. */
  method CreateThenSearch(s: Service, peer: string) returns (created: string, found: string)
    requires s.serviceCollection.Some?
    ensures created == "" && found == ""
  {
    var err;
    created, err := s.Create(peer);
    found, err := s.Search(peer);
  }
}
