/**
 * Opening a TagStudio library: the search for the library root among the
 * ancestors of a path, and the rule that decides whether the database
 * version found there is one this crate can read. The filesystem probe,
 * the connection options, the pool and the version query are I/O, so
 * each is a parameter: a probe function, or the result the call returned.
 */
module Library {
  import opened Wrappers

  /** A filesystem path: absolute (`/…`) or relative, and its components. */
  datatype Path = Path(absolute: bool, components: seq<string>)

  /**
   * `Path::parent`: the path without its last component. The root `/` and
   * the empty relative path have none; a one-component relative path has
   * the empty path as its parent.
   */
  function Parent(p: Path): Option<Path>
  {
    if |p.components| == 0 then None
    else Some(Path(p.absolute, p.components[..|p.components| - 1]))
  }

  /** `PathBuf::join` / `push` of relative components. */
  function Join(p: Path, rel: seq<string>): Path
  {
    Path(p.absolute, p.components + rel)
  }

  /** `.TagStudio/ts_library.sqlite`, the database file of a library root. */
  const DbFile: seq<string> := [".TagStudio", "ts_library.sqlite"]

  /** An `std::io::Error`; its contents are not modelled. */
  datatype IoError = IoError(kind: int)

  /** `Path::try_exists`: whether a path exists, or the error the filesystem returned. */
  type Probe = Path -> Result<bool, IoError>

  /** `Library::is_folder_library_root`: whether `.TagStudio/ts_library.sqlite` exists under `p`. */
  function IsFolderLibraryRoot(tryExists: Probe, p: Path): Result<bool, IoError>
  {
    tryExists(Join(p, DbFile))
  }

  /*
   * The root search.
   */

  /** The ancestor `k` levels up: `p` itself for 0, one `parent()` per level. */
  function Ancestor(p: Path, k: nat): (r: Path)
    requires k <= |p.components|
    ensures |r.components| == |p.components| - k
  {
    Path(p.absolute, p.components[..|p.components| - k])
  }

  /** The ancestors of `p` below level `k` are all probed, and none is a root. */
  ghost predicate NoRootBelow(tryExists: Probe, p: Path, k: nat)
    requires k <= |p.components| + 1
  {
    forall j :: 0 <= j < k ==> IsFolderLibraryRoot(tryExists, Ancestor(p, j)) == Ok(false)
  }

  /**
   * What `get_library_root` returns: the path itself if it is a root,
   * else the search from its parent; none once there is no parent; the
   * first I/O error of a probe ends the search with that error.
   */
  function LibraryRoot(tryExists: Probe, p: Path): Result<Option<Path>, IoError>
    decreases |p.components|
  {
    match IsFolderLibraryRoot(tryExists, p)
    case Err(e) => Err(e)
    case Ok(isRoot) =>
      if isRoot then Ok(Some(p))
      else
        match Parent(p)
        case None => Ok(None)
        case Some(q) => LibraryRoot(tryExists, q)
  }

  /** `Library::get_library_root`: the loop up the ancestors, with `?` on each probe. */
  method GetLibraryRoot(tryExists: Probe, path: Path) returns (r: Result<Option<Path>, IoError>)
    ensures r == LibraryRoot(tryExists, path)
  {
    var p := path;
    var probe := IsFolderLibraryRoot(tryExists, p);
    while probe != Ok(true)
      invariant probe == IsFolderLibraryRoot(tryExists, p)
      invariant LibraryRoot(tryExists, p) == LibraryRoot(tryExists, path)
      decreases |p.components|
    {
      if probe.Err? {
        return Err(probe.error);
      }
      match Parent(p)
      case None =>
        return Ok(None);
      case Some(q) =>
        p := q;
      probe := IsFolderLibraryRoot(tryExists, p);
    }
    return Ok(Some(p));
  }

  /** One level up from the ancestor `k` is the ancestor `k + 1`; from the top there is none. */
  lemma AncestorParent(p: Path, k: nat)
    requires k <= |p.components|
    ensures k < |p.components| ==> Parent(Ancestor(p, k)) == Some(Ancestor(p, k + 1))
    ensures k == |p.components| ==> Parent(Ancestor(p, k)) == None
  {
    if k < |p.components| {
      assert Ancestor(p, k).components[..|p.components| - k - 1] == p.components[..|p.components| - (k + 1)];
    }
  }

  /**
   * The search returns the first ancestor, nearest first, whose probe says
   * it is a root, once every nearer one has been probed and is not.
   */
  lemma {:induction false} RootFound(tryExists: Probe, p: Path, k: nat)
    requires k <= |p.components|
    requires NoRootBelow(tryExists, p, k)
    requires IsFolderLibraryRoot(tryExists, Ancestor(p, k)) == Ok(true)
    ensures LibraryRoot(tryExists, p) == Ok(Some(Ancestor(p, k)))
    decreases k
  {
    if k == 0 {
      assert Ancestor(p, 0) == p;
    } else {
      assert Ancestor(p, 0) == p;
      AncestorParent(p, 0);
      var q := Ancestor(p, 1);
      AncestorsOfParent(p);
      RootFound(tryExists, q, k - 1);
    }
  }

  /** The ancestors of the parent are the ancestors of the path, one level further up. */
  lemma AncestorsOfParent(p: Path)
    requires |p.components| > 0
    ensures forall j :: 0 <= j < |p.components| ==> Ancestor(Ancestor(p, 1), j) == Ancestor(p, j + 1)
  {
    forall j | 0 <= j < |p.components| ensures Ancestor(Ancestor(p, 1), j) == Ancestor(p, j + 1) {
      assert p.components[..|p.components| - 1][..|p.components| - 1 - j] == p.components[..|p.components| - (j + 1)];
    }
  }

  /** The first probe that fails, after nearer ones that found no root, is the search's error. */
  lemma {:induction false} RootIoError(tryExists: Probe, p: Path, k: nat, e: IoError)
    requires k <= |p.components|
    requires NoRootBelow(tryExists, p, k)
    requires IsFolderLibraryRoot(tryExists, Ancestor(p, k)) == Err(e)
    ensures LibraryRoot(tryExists, p) == Err(e)
    decreases k
  {
    assert Ancestor(p, 0) == p;
    if k > 0 {
      AncestorParent(p, 0);
      AncestorsOfParent(p);
      RootIoError(tryExists, Ancestor(p, 1), k - 1, e);
    }
  }

  /** When every ancestor, up to the top, probes as no root, the search finds none. */
  lemma {:induction false} RootAbsent(tryExists: Probe, p: Path)
    requires NoRootBelow(tryExists, p, |p.components| + 1)
    ensures LibraryRoot(tryExists, p) == Ok(None)
    decreases |p.components|
  {
    assert Ancestor(p, 0) == p;
    AncestorParent(p, 0);
    if |p.components| > 0 {
      AncestorsOfParent(p);
      RootAbsent(tryExists, Ancestor(p, 1));
    }
  }

  /**
   * What the search returns is justified by the probes: a root it returns
   * is an ancestor whose probe found the database file and every nearer
   * one found none; none means no ancestor is a root.
   */
  lemma {:induction false} RootSound(tryExists: Probe, p: Path)
    ensures LibraryRoot(tryExists, p).Ok? && LibraryRoot(tryExists, p).value.Some? ==>
      exists k :: 0 <= k <= |p.components| && LibraryRoot(tryExists, p).value.value == Ancestor(p, k)
        && NoRootBelow(tryExists, p, k) && IsFolderLibraryRoot(tryExists, Ancestor(p, k)) == Ok(true)
    ensures LibraryRoot(tryExists, p) == Ok(None) ==> NoRootBelow(tryExists, p, |p.components| + 1)
    decreases |p.components|
  {
    assert Ancestor(p, 0) == p;
    var probe := IsFolderLibraryRoot(tryExists, p);
    if probe == Ok(false) && |p.components| > 0 {
      var q := Ancestor(p, 1);
      AncestorParent(p, 0);
      AncestorsOfParent(p);
      RootSound(tryExists, q);
      if LibraryRoot(tryExists, q).Ok? && LibraryRoot(tryExists, q).value.Some? {
        var k :| 0 <= k <= |q.components| && LibraryRoot(tryExists, q).value.value == Ancestor(q, k)
          && NoRootBelow(tryExists, q, k) && IsFolderLibraryRoot(tryExists, Ancestor(q, k)) == Ok(true);
        assert NoRootBelow(tryExists, p, k + 1) by {
          forall j | 0 <= j < k + 1 ensures IsFolderLibraryRoot(tryExists, Ancestor(p, j)) == Ok(false) {
            if j > 0 {
              assert Ancestor(q, j - 1) == Ancestor(p, j);
            }
          }
        }
      }
      if LibraryRoot(tryExists, q) == Ok(None) {
        forall j | 0 <= j < |p.components| + 1 ensures IsFolderLibraryRoot(tryExists, Ancestor(p, j)) == Ok(false) {
          if j > 0 {
            assert Ancestor(q, j - 1) == Ancestor(p, j);
          }
        }
      }
    }
  }

  /*
   * Opening.
   */

  /** `LibraryOpenError`; the path of `LibraryNotFound` is the one given, unformatted. */
  datatype OpenError<SqlErr> =
    | IoFailed(ioSource: IoError)
    | LibraryNotFound(path: Path)
    | SqlError(sqlSource: SqlErr)

  /** A `Library`: its root, and the database file its pool connects to. */
  datatype Library = Library(path: Path, db: Path)

  /**
   * `Library::open_library`: the root of `path`, then connection options
   * for its database file; `connect` is `SqliteConnectOptions::from_str`.
   */
  function OpenLibrary<SqlErr>(tryExists: Probe, connect: Path -> Result<(), SqlErr>, path: Path): Result<Library, OpenError<SqlErr>>
  {
    match LibraryRoot(tryExists, path)
    case Err(e) => Err(IoFailed(e))
    case Ok(None) => Err(LibraryNotFound(path))
    case Ok(Some(root)) =>
      var db := Join(root, DbFile);
      match connect(db)
      case Err(s) => Err(SqlError(s))
      case Ok(_) => Ok(Library(root, db))
  }

  /**
   * An opened library is rooted at the root the search found, its database
   * is the file the probe found there, and a path with no root among its
   * ancestors is reported as not found, with that path.
   */
  lemma OpenLibraryRoot<SqlErr>(tryExists: Probe, connect: Path -> Result<(), SqlErr>, path: Path)
    ensures OpenLibrary(tryExists, connect, path).Ok? ==>
      var lib := OpenLibrary(tryExists, connect, path).value;
      && LibraryRoot(tryExists, path) == Ok(Some(lib.path))
      && lib.db == Join(lib.path, DbFile)
      && tryExists(lib.db) == Ok(true)
    ensures OpenLibrary(tryExists, connect, path) == Err(LibraryNotFound(path)) <==> LibraryRoot(tryExists, path) == Ok(None)
  {
    RootSound(tryExists, path);
  }

  /*
   * The version rule.
   */

  /** The version `try_open_library` accepts, `allowed_version` of its error. */
  const AllowedVersion: int := 101

  /** The version assumed when the `versions` row cannot be read. */
  const MissingVersion: int := 100

  /**
   * Rust's `%` on `i64`: division truncates toward zero, so the remainder
   * takes the sign of the dividend and has the magnitude of `|a| % b`.
   */
  function RustRem(a: int, b: int): (r: int)
    requires b > 0
    ensures -b < r < b
    ensures a >= 0 ==> r == a % b
    ensures a < 0 ==> r <= 0 && -r == (-a) % b
  {
    if a >= 0 then a % b else -((-a) % b)
  }

  /** Rust's `/` on `i64`: the quotient truncated toward zero. */
  function RustQuot(a: int, b: int): int
    requires b > 0
  {
    if a >= 0 then a / b else -((-a) / b)
  }

  /**
   * Rust's division identity `a == b * (a / b) + a % b`, with the truncated
   * quotient; the remainder is odd in the dividend.
   */
  lemma RustDivision(a: int, b: int)
    requires b > 0
    ensures a == b * RustQuot(a, b) + RustRem(a, b)
    ensures RustRem(-a, b) == -RustRem(a, b)
  {
    var m := if a >= 0 then a else -a;
    assert m == (m / b) * b + m % b;
  }

  /** `version >= 101 && version % 100 == 1` */
  predicate VersionAccepted(v: int)
  {
    v >= 101 && RustRem(v, 100) == 1
  }

  /**
   * The accepted versions are exactly 101, 201, 301, …: one more than a
   * positive multiple of 100. The missing-row default 100 is not one.
   */
  lemma VersionAcceptedIff(v: int)
    ensures VersionAccepted(v) <==> v >= 101 && (v - 1) % 100 == 0
    ensures VersionAccepted(v) ==> RustRem(v, 100) == v % 100
    ensures !VersionAccepted(MissingVersion)
    ensures VersionAccepted(AllowedVersion) && VersionAccepted(201) && !VersionAccepted(1) && !VersionAccepted(-99)
    ensures RustRem(-101, 100) == -1 && RustRem(-199, 100) == -99
  {
  }

  /** `LibraryTryOpenError`. */
  datatype TryOpenError<SqlErr, PoolErr> =
    | OpenFailed(openSource: OpenError<SqlErr>)
    | IncompatibleVersion(libVersion: int, allowedVersion: int)
    | SqlPoolError(poolSource: PoolErr)

  /** The version `try_open_library` decides on: the one read, or 100 when the query failed. */
  function VersionOf<SqlErr>(read: Result<int, SqlErr>): int
  {
    match read
    case Ok(v) => v
    case Err(_) => MissingVersion
  }

  /**
   * `Library::try_open_library`: open the library, take a connection from
   * its pool (`pool`), read the `CURRENT` version (`read`) and accept it
   * or report it.
   */
  function TryOpenLibrary<SqlErr, PoolErr>(
    tryExists: Probe, connect: Path -> Result<(), SqlErr>, path: Path,
    pool: Result<(), PoolErr>, read: Result<int, SqlErr>): Result<Library, TryOpenError<SqlErr, PoolErr>>
  {
    match OpenLibrary(tryExists, connect, path)
    case Err(e) => Err(OpenFailed(e))
    case Ok(lib) =>
      match pool
      case Err(p) => Err(SqlPoolError(p))
      case Ok(_) =>
        var version := VersionOf(read);
        if VersionAccepted(version) then Ok(lib)
        else Err(IncompatibleVersion(version, AllowedVersion))
  }

  /**
   * The library opens exactly when `open_library` succeeds, a connection
   * is available and the version read is accepted; it is then the library
   * `open_library` returned. An incompatible version is reported with the
   * version decided on and 101, and a failed read is reported as 100.
   */
  lemma TryOpenOutcome<SqlErr, PoolErr>(
    tryExists: Probe, connect: Path -> Result<(), SqlErr>, path: Path,
    pool: Result<(), PoolErr>, read: Result<int, SqlErr>)
    ensures TryOpenLibrary(tryExists, connect, path, pool, read).Ok?
        <==> OpenLibrary(tryExists, connect, path).Ok? && pool.Ok? && VersionAccepted(VersionOf(read))
    ensures TryOpenLibrary(tryExists, connect, path, pool, read).Ok? ==>
      TryOpenLibrary(tryExists, connect, path, pool, read).value == OpenLibrary(tryExists, connect, path).value
    ensures OpenLibrary(tryExists, connect, path).Ok? && pool.Ok? && !VersionAccepted(VersionOf(read)) ==>
      TryOpenLibrary(tryExists, connect, path, pool, read) == Err(IncompatibleVersion(VersionOf(read), 101))
    ensures OpenLibrary(tryExists, connect, path).Ok? && pool.Ok? && read.Err? ==>
      TryOpenLibrary(tryExists, connect, path, pool, read) == Err(IncompatibleVersion(100, 101))
  {
    VersionAcceptedIff(MissingVersion);
  }
}
