/** The blob store: a write-once discipline on top of plain keyed storage. */
module Storage {
  import opened Basics

  type Blobs = map<string, Bytes>

  datatype PutOutcome = Wrote | AlreadyThere

  datatype StorageError = BlobNotFound(key: string)

  /** The store after a conditional write: an occupied key keeps its bytes. */
  function PutIfAbsent(blobs: Blobs, key: string, bytes: Bytes): Blobs {
    if key in blobs then blobs else blobs[key := bytes]
  }

  /** Nothing stored in `a` is missing or different in `b`. */
  ghost predicate Grows(a: Blobs, b: Blobs) {
    forall k | k in a :: k in b && b[k] == a[k]
  }

  class InMemoryStorage {
    var inner: Blobs

    constructor ()
      ensures inner == map[]
    {
      inner := map[];
    }

    method Put(key: string, blob: Bytes)
      modifies this
      ensures inner == old(inner)[key := blob]
    {
      inner := inner[key := blob];
    }

    method Get(key: string) returns (r: Result<Bytes, StorageError>)
      ensures r == if key in inner then Ok(inner[key]) else Err(BlobNotFound(key))
    {
      if key in inner {
        r := Ok(inner[key]);
      } else {
        r := Err(BlobNotFound(key));
      }
    }

    method Head(key: string) returns (r: Result<nat, StorageError>)
      ensures r == if key in inner then Ok(|inner[key]|) else Err(BlobNotFound(key))
    {
      var blob := Get(key);
      match blob {
        case Ok(b) => r := Ok(|b|);
        case Err(e) => r := Err(e);
      }
    }

    method Delete(key: string) returns (r: Result<(), StorageError>)
      modifies this
      ensures inner == old(inner) - {key}
      ensures r.Ok? <==> key in old(inner)
      ensures r.Err? ==> r.error == BlobNotFound(key)
    {
      if key in inner {
        inner := inner - {key};
        r := Ok(());
      } else {
        r := Err(BlobNotFound(key));
      }
    }

    method TryPut(key: string, blob: Bytes) returns (outcome: PutOutcome)
      modifies this
      ensures inner == PutIfAbsent(old(inner), key, blob)
      ensures outcome.Wrote? <==> key !in old(inner)
    {
      if key in inner {
        outcome := AlreadyThere;
      } else {
        inner := inner[key := blob];
        outcome := Wrote;
      }
    }
  }

  /** Conditional writes under one key, in any number: the first one decides. */
  function PutAll(blobs: Blobs, key: string, attempts: seq<Bytes>): Blobs
    decreases |attempts|
  {
    if attempts == [] then blobs else PutAll(PutIfAbsent(blobs, key, attempts[0]), key, attempts[1..])
  }

  /** Racing conditional writes converge on one blob: what was there, or else the first attempt. */
  lemma {:induction false} FirstWriteWins(blobs: Blobs, key: string, attempts: seq<Bytes>)
    requires attempts != []
    ensures PutAll(blobs, key, attempts) == if key in blobs then blobs else blobs[key := attempts[0]]
    decreases |attempts|
  {
    var next := PutIfAbsent(blobs, key, attempts[0]);
    if |attempts| > 1 {
      FirstWriteWins(next, key, attempts[1..]);
    }
  }
}
