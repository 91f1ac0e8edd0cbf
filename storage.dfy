/**
 * The Cloud Storage bucket the service reads and writes, as a gateway: a flat
 * namespace from object names to contents, listed by prefix, downloaded,
 * written through one sequential upload stream, and deleted. The calls that
 * raise in the real client (`list_blobs`, `download_as_bytes`, `delete`) fail
 * here where the bucket's faults say so.
 */
module Storage {
  import opened Wrappers
  import opened Text

  /** The bytes of an object: the UTF-8 encoding of a text, bytes that are not
      valid UTF-8, or the gzip compression of the UTF-8 encoding of a text. */
  datatype Payload = Utf8(text: string) | NotUtf8 | Gzip(text: string)

  /** The effects a merge has on the outside world, in the order they happen. */
  datatype Event =
    | GzipClosed                                  // the gzip wrapper was finalised
    | Committed(name: string, payload: Payload)   // the upload stream was closed: the object now holds `payload`
    | Deleted(name: string)                       // an object was deleted

  /** The text `UnicodeDecodeError` stands for when an object is not UTF-8. */
  const DecodeFailure := "'utf-8' codec can't decode bytes"
  const NoSuchObject := "404 No such object: "

  /** `content.decode('utf-8')`. A gzip stream starts with byte 0x8b after the
      magic 0x1f, which is never valid UTF-8, so it fails too. */
  function Decode(p: Payload): (r: Result<string, string>)
    ensures r.Success? <==> p.Utf8?
    ensures r.Success? ==> r.value == p.text
  {
    match p
    case Utf8(t) => Success(t)
    case _ => Failure(DecodeFailure)
  }

  predicate Distinct(s: seq<string>)
  {
    forall i, j :: 0 <= i < j < |s| ==> s[i] != s[j]
  }

  /** A distinct sequence is its head followed by a distinct tail that
      does not hold the head. */
  lemma DistinctTail(s: seq<string>)
    requires s != []
    ensures Distinct(s) ==> Distinct(s[1..]) && s[0] !in s[1..]
  {
    if Distinct(s) {
      forall i | 0 <= i < |s| - 1
        ensures s[1..][i] != s[0]
      {
        assert s[1..][i] == s[i + 1];
      }
    }
  }

  /** The names in `s` that start with `prefix`, in order. */
  function WithPrefix(s: seq<string>, prefix: string): (r: seq<string>)
    ensures forall x :: x in r <==> x in s && prefix <= x
    ensures |r| <= |s|
    ensures Distinct(s) ==> Distinct(r)
  {
    if s == [] then []
    else
      var rest := WithPrefix(s[1..], prefix);
      DistinctTail(s);
      (if prefix <= s[0] then [s[0]] else []) + rest
  }

  /** `s` without `x`, in order. */
  function Without(s: seq<string>, x: string): (r: seq<string>)
    ensures forall y :: y in r <==> y in s && y != x
    ensures Distinct(s) ==> Distinct(r)
  {
    if s == [] then []
    else
      var rest := Without(s[1..], x);
      DistinctTail(s);
      (if s[0] == x then [] else [s[0]]) + rest
  }

  /** The bucket's state: its object names in the order the service lists them,
      their contents, the error listing raises (if it does), and the objects
      whose download or deletion raises (with the error's text). */
  datatype Store = Store(
    names: seq<string>,
    objects: map<string, Payload>,
    listFault: Option<string>,
    readFaults: map<string, string>,
    deleteFaults: map<string, string>)
  {
    ghost predicate Valid()
    {
      Distinct(names) && forall x :: x in objects <==> x in names
    }

    /** What `bucket.list_blobs(prefix=prefix)` lists when it does not
        raise: every object whose name starts with the prefix, in listing
        order. */
    function ListBlobs(prefix: string): (r: seq<string>)
      ensures forall x :: x in r <==> x in names && prefix <= x
      ensures Distinct(names) ==> Distinct(r)
    {
      WithPrefix(names, prefix)
    }

    /** `blob.download_as_bytes()`. */
    function Download(name: string): (r: Result<Payload, string>)
      ensures r.Success? <==> name in objects && name !in readFaults
      ensures r.Success? ==> r.value == objects[name]
    {
      if name in readFaults then Failure(readFaults[name])
      else if name !in objects then Failure(NoSuchObject + name)
      else Success(objects[name])
    }

    /** Closing an upload stream to `name`: the object is created or replaced. */
    function Put(name: string, p: Payload): (r: Store)
      requires Valid()
      ensures r.Valid()
      ensures r.objects == objects[name := p]
      ensures r.listFault == listFault && r.readFaults == readFaults && r.deleteFaults == deleteFaults
    {
      this.(names := if name in objects then names else names + [name], objects := objects[name := p])
    }

    /** `blob.delete()`. */
    function Delete(name: string): (r: Result<Store, string>)
      requires Valid()
      ensures r.Success? <==> name in objects && name !in deleteFaults
      ensures r.Success? ==> r.value.Valid() && r.value.objects == objects - {name}
      ensures r.Success? ==>
        r.value.listFault == listFault && r.value.readFaults == readFaults && r.value.deleteFaults == deleteFaults
    {
      if name in deleteFaults then Failure(deleteFaults[name])
      else if name !in objects then Failure(NoSuchObject + name)
      else Success(this.(names := Without(names, name), objects := objects - {name}))
    }
  }

  /** The bucket gateway the service holds (`self.bucket`). Its state changes
      in place when an upload is committed or an object deleted; `trace`
      records those effects, and the finalisation of a gzip wrapper writing
      into it, in order. */
  class Bucket {
    var names: seq<string>
    var objects: map<string, Payload>
    const listFault: Option<string>
    const readFaults: map<string, string>
    const deleteFaults: map<string, string>
    ghost var trace: seq<Event>

    function Snapshot(): Store
      reads this
    {
      Store(names, objects, listFault, readFaults, deleteFaults)
    }

    ghost predicate Valid()
      reads this
    {
      Snapshot().Valid()
    }

    constructor (initial: Store)
      requires initial.Valid()
      ensures Valid() && Snapshot() == initial && trace == []
    {
      names := initial.names;
      objects := initial.objects;
      listFault := initial.listFault;
      readFaults := initial.readFaults;
      deleteFaults := initial.deleteFaults;
      trace := [];
    }

    /** `list(self.bucket.list_blobs(prefix=prefix))`: the error raised, or
        the listing of the bucket's state. */
    method ListBlobs(prefix: string) returns (r: Result<seq<string>, string>)
      ensures r.Failure? <==> listFault.Some?
      ensures r.Failure? ==> r.error == listFault.value
      ensures r.Success? ==> r.value == Snapshot().ListBlobs(prefix)
    {
      if listFault.Some? {
        return Failure(listFault.value);
      }
      r := Success(WithPrefix(names, prefix));
    }

    method Download(name: string) returns (r: Result<Payload, string>)
      ensures r == Snapshot().Download(name)
    {
      if name in readFaults {
        r := Failure(readFaults[name]);
      } else if name !in objects {
        r := Failure(NoSuchObject + name);
      } else {
        r := Success(objects[name]);
      }
    }

    method Commit(name: string, p: Payload)
      requires Valid()
      modifies this
      ensures Valid()
      ensures Snapshot() == old(Snapshot()).Put(name, p)
      ensures trace == old(trace) + [Committed(name, p)]
    {
      if name !in objects {
        names := names + [name];
      }
      objects := objects[name := p];
      trace := trace + [Committed(name, p)];
    }

    method Delete(name: string) returns (err: Option<string>)
      requires Valid()
      modifies this
      ensures Valid()
      ensures var d := old(Snapshot()).Delete(name);
        if d.Success? then err.None? && Snapshot() == d.value && trace == old(trace) + [Deleted(name)]
        else err == Some(d.error) && Snapshot() == old(Snapshot()) && trace == old(trace)
    {
      if name in deleteFaults {
        err := Some(deleteFaults[name]);
      } else if name !in objects {
        err := Some(NoSuchObject + name);
      } else {
        names := Without(names, name);
        objects := objects - {name};
        trace := trace + [Deleted(name)];
        err := None;
      }
    }
  }

  /** `merged_blob.open('wb')`, optionally wrapped in `gzip.GzipFile`. The
      stream collects the text handed to `write` (before compression); closing
      the upload stream commits the object to the bucket. The gzip wrapper is
      opaque: only whether it is still open is tracked. */
  class BlobWriter {
    const name: string
    const compress: bool
    var written: string
    ghost var gzipOpen: bool
    var rawOpen: bool

    constructor Open(name: string, compress: bool)
      ensures this.name == name && this.compress == compress
      ensures written == [] && rawOpen && gzipOpen == compress
    {
      this.name := name;
      this.compress := compress;
      written := [];
      rawOpen := true;
      gzipOpen := compress;
    }

    /** `dest.write(line.encode('utf-8'))`: only while every layer is open. */
    method Write(s: string)
      requires rawOpen && gzipOpen == compress
      modifies this`written
      ensures written == old(written) + s
    {
      written := written + s;
    }

    /** `dest.close()` on the gzip wrapper: writes the trailer into the still
        open upload stream and leaves that stream open. */
    method CloseGzip(bucket: Bucket)
      requires compress && gzipOpen && rawOpen
      modifies this`gzipOpen, bucket`trace
      ensures !gzipOpen
      ensures bucket.trace == old(bucket.trace) + [GzipClosed]
    {
      gzipOpen := false;
      bucket.trace := bucket.trace + [GzipClosed];
    }

    /** Leaving the `with` block: the upload stream closes and the object is
        committed; allowed only once the gzip wrapper is finalised. */
    method Close(bucket: Bucket)
      requires rawOpen && !gzipOpen && bucket.Valid()
      modifies this`rawOpen, bucket
      ensures !rawOpen && bucket.Valid()
      ensures bucket.Snapshot() == old(bucket.Snapshot()).Put(name, if compress then Gzip(written) else Utf8(written))
      ensures bucket.trace == old(bucket.trace) + [Committed(name, if compress then Gzip(written) else Utf8(written))]
    {
      rawOpen := false;
      bucket.Commit(name, if compress then Gzip(written) else Utf8(written));
    }
  }
}
