/**
 * The upload package's storage store: it remembers the active storage type
 * once it has been asked for, until the cache is cleared. The request for
 * the active storage is a parameter: the type the server would answer.
 */
module StorageStore {
  import opened Wrappers

  /** `StorageType`: the four engines. */
  datatype StorageType = Local | AliyunOss | TencentCos | QiniuKodo

  /** The value each engine is stored under. */
  function StorageTypeName(t: StorageType): (r: string)
    ensures r in {"local", "aliyun-oss", "tencent-cos", "qiniu-kodo"}
  {
    match t
    case Local => "local"
    case AliyunOss => "aliyun-oss"
    case TencentCos => "tencent-cos"
    case QiniuKodo => "qiniu-kodo"
  }

  /** Different engines are stored under different names. */
  lemma StorageTypeNameInjective(a: StorageType, b: StorageType)
    requires StorageTypeName(a) == StorageTypeName(b)
    ensures a == b
  {
  }

  class Store {
    /** `storageType`, `null` until known. */
    var storageType: Option<StorageType>

    constructor()
      ensures storageType.None?
    {
      storageType := None;
    }

    /** `updateStorageType`: sets exactly the given type. */
    method UpdateStorageType(t: StorageType)
      modifies this
      ensures storageType == Some(t)
    {
      storageType := Some(t);
    }

    /** `clearCache`: forgets the type. */
    method ClearCache()
      modifies this
      ensures storageType.None?
    {
      storageType := None;
    }

    /**
     * `checkStorageType`: a known type is returned without asking the
     * server; otherwise the server's answer `active` is remembered and
     * returned. `asked` tells whether the server was asked.
     */
    method CheckStorageType(active: StorageType) returns (r: StorageType, asked: bool)
      modifies this
      ensures asked <==> old(storageType).None?
      ensures old(storageType).Some? ==> r == old(storageType).value && storageType == old(storageType)
      ensures old(storageType).None? ==> r == active && storageType == Some(active)
      ensures storageType == Some(r)
    {
      if storageType.Some? {
        return storageType.value, false;
      }
      storageType := Some(active);
      return active, true;
    }
  }
}
