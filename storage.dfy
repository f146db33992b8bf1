/** The storage container the commands talk to (`CloudStorage().container`
    and the `ResourceCloudStorage` uploader). The provider is not modelled:
    whether a delete or an upload succeeds is left open, and every call is
    recorded in a ghost log so that callers can state what they asked for. */
module Storage {
  import opened Catalog

  /** One call made to the provider and its outcome. */
  datatype Call =
    | Delete(obj: StorageObject, ok: bool)
    | Upload(resourceId: string, filename: string, path: string, ok: bool)

  /** The listing with every object of that name removed. */
  function Without(objs: seq<StorageObject>, name: string): seq<StorageObject>
  {
    if objs == [] then []
    else
      var n := |objs| - 1;
      Without(objs[..n], name) + (if objs[n].name == name then [] else [objs[n]])
  }

  lemma {:induction false} WithoutMembership(objs: seq<StorageObject>, name: string, o: StorageObject)
    ensures o in Without(objs, name) <==> o in objs && o.name != name
  {
    if objs != [] {
      var n := |objs| - 1;
      WithoutMembership(objs[..n], name, o);
      assert objs == objs[..n] + [objs[n]];
    }
  }

  class Container {
    var objects: seq<StorageObject>
    ghost var Log: seq<Call>

    constructor (objects: seq<StorageObject>)
      ensures this.objects == objects && Log == []
    {
      this.objects := objects;
      Log := [];
    }

    /** `container.list_objects()`. */
    method ListObjects() returns (listing: seq<StorageObject>)
      ensures listing == objects
    {
      listing := objects;
    }

    /** `container.delete_object(obj)`: reports failure as `false`; on
        success the object is gone from the container. */
    method DeleteObject(obj: StorageObject) returns (ok: bool)
      modifies this
      ensures Log == old(Log) + [Delete(obj, ok)]
      ensures objects == if ok then Without(old(objects), obj.name) else old(objects)
    {
      ok := *;
      if ok {
        objects := Without(objects, obj.name);
      }
      Log := Log + [Delete(obj, ok)];
    }

    /** `ResourceCloudStorage(resource).upload(id)` with the local file at
        `path` as payload; `false` stands for an exception it raised. */
    method UploadResource(resourceId: string, filename: string, path: string) returns (ok: bool)
      modifies this
      ensures Log == old(Log) + [Upload(resourceId, filename, path, ok)]
      ensures objects == old(objects)
    {
      ok := *;
      Log := Log + [Upload(resourceId, filename, path, ok)];
    }
  }
}
