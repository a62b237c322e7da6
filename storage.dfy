/** The two places a resume can live: the local upload directory tree and the
    cloud bucket. Both are mutable state that the offload cycle changes in place. */
module Storage {
  import opened Wrappers
  import opened Paths

  type Bytes = seq<bv8>

  datatype Node = File(content: Bytes) | Dir

  /** A tree: the empty path is the working directory itself and is never an entry,
      and every entry deeper than one component sits inside an existing directory. */
  ghost predicate WellFormed(e: map<Path, Node>) {
    && [] !in e
    && forall p | p in e && |p| > 1 :: Dirname(p) in e && e[Dirname(p)].Dir?
  }

  /** The entries directly inside `d`. */
  function Children(e: map<Path, Node>, d: Path): set<Path> {
    set p | p in e && p != [] && Dirname(p) == d
  }

  predicate IsFileIn(e: map<Path, Node>, p: Path) {
    p in e && e[p].File?
  }

  /** What `os.rmdir` accepts: an existing directory with nothing in it. */
  predicate IsEmptyDirIn(e: map<Path, Node>, d: Path) {
    d in e && e[d].Dir? && Children(e, d) == {}
  }

  /** Removing a file, or a directory with nothing in it, keeps the tree well formed. */
  lemma RemoveLeafKeepsWellFormed(e: map<Path, Node>, p: Path)
    requires IsFileIn(e, p) || IsEmptyDirIn(e, p)
    ensures WellFormed(e) ==> WellFormed(e - {p})
  {
  }

  /** Whatever exists below a directory means the directory exists too. */
  lemma {:induction false} AncestorExists(e: map<Path, Node>, root: Path, p: Path)
    requires WellFormed(e) && p in e
    requires root != [] && StrictlyUnder(root, p)
    ensures root in e && e[root].Dir?
    decreases |p|
  {
    var d := Dirname(p);
    assert IsPrefix(root, d);
    if d != root {
      AncestorExists(e, root, d);
    }
  }

  /** The local filesystem below the working directory. */
  class Disk {
    var entries: map<Path, Node>

    ghost predicate Valid()
      reads this
    {
      WellFormed(entries)
    }

    constructor (initial: map<Path, Node>)
      requires WellFormed(initial)
      ensures Valid() && entries == initial
    {
      entries := initial;
    }

    /** `os.path.exists` */
    predicate Exists(p: Path): (r: bool)
      reads this
      ensures r <==> p in entries
      // in a tree, whatever exists sits inside an existing directory
      ensures Valid() && r && |p| > 1 ==> Dirname(p) in entries && entries[Dirname(p)].Dir?
    {
      p in entries
    }

    /** `os.path.isfile` */
    predicate IsFile(p: Path): (r: bool)
      reads this
      ensures r ==> Exists(p) && entries[p].File?
      // a file holds nothing: no entry lies directly inside it
      ensures Valid() && r ==> Children(entries, p) == {}
    {
      IsFileIn(entries, p)
    }

    /** Reading the file's bytes, as `upload_from_filename` does; None when it is not a file. */
    method Read(p: Path) returns (r: Option<Bytes>)
      ensures r.Some? <==> IsFile(p)
      ensures r.Some? ==> entries[p] == File(r.value)
    {
      if p in entries && entries[p].File? {
        r := Some(entries[p].content);
      } else {
        r := None;
      }
    }

    /** `os.listdir`: the names inside a directory, or None for the OSError it raises otherwise. */
    method ListDir(d: Path) returns (r: Option<set<string>>)
      ensures r.Some? <==> d in entries && entries[d].Dir?
      ensures r.Some? ==> (r.value == {} <==> Children(entries, d) == {})
      ensures r.Some? ==> forall p <- Children(entries, d) :: p[|p| - 1] in r.value
      ensures r.Some? ==> forall n <- r.value :: exists c <- Children(entries, d) :: c[|c| - 1] == n
    {
      if d in entries && entries[d].Dir? {
        var names := set p | p in Children(entries, d) :: p[|p| - 1];
        if Children(entries, d) != {} {
          var p :| p in Children(entries, d);
          assert p[|p| - 1] in names;
        }
        r := Some(names);
      } else {
        r := None;
      }
    }

    /** `os.remove`: succeeds on a file, raises OSError (ok == false) on anything else. */
    method Remove(p: Path) returns (ok: bool)
      requires Valid()
      modifies this
      ensures Valid()
      ensures ok == old(IsFile(p))
      ensures entries == if ok then old(entries) - {p} else old(entries)
    {
      ok := p in entries && entries[p].File?;
      if ok {
        RemoveLeafKeepsWellFormed(entries, p);
        entries := entries - {p};
      }
    }

    /** `os.rmdir`: succeeds on an empty directory, raises OSError (ok == false) otherwise. */
    method Rmdir(d: Path) returns (ok: bool)
      requires Valid()
      modifies this
      ensures Valid()
      ensures ok == old(IsEmptyDirIn(entries, d))
      ensures entries == if ok then old(entries) - {d} else old(entries)
    {
      ok := IsEmptyDirIn(entries, d);
      if ok {
        RemoveLeafKeepsWellFormed(entries, d);
        entries := entries - {d};
      }
    }
  }

  /** Every resume object lives under this name prefix in the bucket. */
  const ResumePrefix := "resumes/"

  /** The inverse of key construction: the relative path components an object name stands for. */
  function ParseObjectKey(k: string): (r: Option<Path>)
    ensures r.Some? <==> ResumePrefix <= k
    ensures r.Some? ==> |r.value| >= 1
  {
    if ResumePrefix <= k then Some(Split(k[|ResumePrefix|..], '/')) else None
  }

  /** What the storage service does with one file's requests, chosen by the environment:
      whether the upload stores the object, whether it raises, whether `reload()` raises. */
  datatype Attempt = Attempt(stored: bool, uploadRaises: bool, reloadOk: bool)

  /** How one file of a batch ended. `Failed(uploaded)` is the exception path, recording
      whether the upload call had returned before the exception. */
  datatype FileOutcome = Deleted | Unverified | Failed(uploaded: bool)

  /** A request the cycle makes of the cloud storage service. */
  datatype Call = NewClient | UploadCall(key: string) | ReloadCall(key: string) | ExistsCall(key: string)

  /** The log `calls` extends `calls0` without creating a client. */
  ghost predicate NoClientSince(calls0: seq<Call>, calls: seq<Call>) {
    calls0 <= calls && NewClient !in calls[|calls0|..]
  }

  /** The log `calls` extends `calls0` with exactly one client creation, made first. */
  ghost predicate OneClientCreated(calls0: seq<Call>, calls: seq<Call>) {
    NoClientSince(calls0 + [NewClient], calls)
  }

  /** No client was created between log positions `a` and `c` if none was between `a` and `b`
      nor between `b` and `c`. */
  lemma NoNewClientAcross(a: seq<Call>, b: seq<Call>, c: seq<Call>)
    requires NoClientSince(a, b) && NoClientSince(b, c)
    ensures NoClientSince(a, c)
  {
    assert c[|a|..] == b[|a|..] + c[|b|..];
  }

  /** The target bucket: its objects by name, and every request made of the service so far. */
  class Cloud {
    var objects: map<string, Bytes>
    var calls: seq<Call>

    constructor (initial: map<string, Bytes>)
      ensures objects == initial && calls == []
    {
      objects := initial;
      calls := [];
    }

    /** `storage.Client()` followed by `client.bucket(name)`; `ok` is whether they raised. */
    method Connect(ok: bool) returns (connected: bool)
      modifies this
      ensures connected == ok
      ensures objects == old(objects) && calls == old(calls) + [NewClient]
    {
      calls := calls + [NewClient];
      connected := ok;
    }

    /** `blob.upload_from_filename`: the object is stored when `stored`, and the call raises
        when `raises` (a timeout can do both). The result is whether it returned normally. */
    method Upload(key: string, data: Bytes, stored: bool, raises: bool) returns (returned: bool)
      modifies this
      ensures returned == !raises
      ensures objects == if stored then old(objects)[key := data] else old(objects)
      ensures calls == old(calls) + [UploadCall(key)]
    {
      calls := calls + [UploadCall(key)];
      if stored {
        objects := objects[key := data];
      }
      returned := !raises;
    }

    /** `blob.reload()`: refreshes metadata; `ok` is whether it returned normally. */
    method Reload(key: string, ok: bool) returns (returned: bool)
      modifies this
      ensures returned == ok
      ensures objects == old(objects) && calls == old(calls) + [ReloadCall(key)]
    {
      calls := calls + [ReloadCall(key)];
      returned := ok;
    }

    /** `blob.exists()`: truthfully reports whether the bucket holds the key. */
    method Exists(key: string) returns (present: bool)
      modifies this
      ensures present == (key in old(objects))
      ensures objects == old(objects) && calls == old(calls) + [ExistsCall(key)]
    {
      calls := calls + [ExistsCall(key)];
      present := key in objects;
    }
  }
}
