/**
 * The connection cache of the Gradle MCP server: a map from a normalised
 * project path to a cached Gradle connection and the time it was last used.
 *
 * The first half specifies the cache on values (`Cache`, `Acquire`,
 * `Release`, `CloseAllEntries`, `Sweep`) and proves the cache's safety
 * property about them; the second half is the imperative `ConnectionManager`,
 * whose methods are proved to perform exactly those transitions.
 *
 * Time is a `now` parameter in milliseconds. Connections are opaque handle
 * ids drawn from a counter, and every `close()` call on a handle is recorded
 * in a ghost multiset, so "closed exactly once" is a multiplicity of one.
 * A close that throws is caught and logged by the source, so it changes
 * nothing but that record.
 */
module Connections {
  import opened Wrappers
  import opened JavaStrings
  import opened Files

  /** CONNECTION_TIMEOUT: five minutes, in milliseconds. */
  const ConnectionTimeoutMs: nat := 5 * 60 * 1000

  /** An opaque `ProjectConnection`. */
  type Handle = nat

  /** The exceptions `getConnection` lets through to its caller. */
  datatype Error =
    | IllegalArgument(message: string)  // IllegalArgumentException
    | ConnectFailed                     // GradleConnector.connect() threw

  /** A `CachedConnection` seen as a value: its connection and when it was last used. */
  datatype Entry = Entry(handle: Handle, lastUsed: nat)

  /** `CachedConnection.isExpired`: strictly more than the timeout has passed since the last use. */
  predicate Expired(e: Entry, now: nat) {
    now - e.lastUsed > ConnectionTimeoutMs
  }

  /** An entry exactly five minutes old is still live; one millisecond later it has expired. */
  lemma ExpiryIsStrict(e: Entry)
    ensures !Expired(e, e.lastUsed + ConnectionTimeoutMs)
    ensures Expired(e, e.lastUsed + ConnectionTimeoutMs + 1)
  {
  }

  /** While the clock does not go back, an expired entry stays expired. */
  lemma ExpiryPersists(e: Entry, now: nat, later: nat)
    requires now <= later && Expired(e, now)
    ensures Expired(e, later)
  {
  }

  /** The build files whose presence makes a directory a Gradle project. */
  const BuildFileNames: seq<string> := ["build.gradle", "build.gradle.kts", "settings.gradle", "settings.gradle.kts"]

  predicate HasGradleFiles(fs: FileSystem, dir: string) {
    exists i :: 0 <= i < |BuildFileNames| && Exists(fs, Child(dir, BuildFileNames[i]))
  }

  /**
   * `createConnection(path)` up to the foreign `GradleConnector.connect()`,
   * whose success is `reachable`: the checks, in order, and the exception
   * each one throws.
   */
  function CreateConnection(fs: FileSystem, path: string, reachable: bool): (r: Result<(), Error>)
    ensures r.Success? <==> IsDirectory(fs, path) && HasGradleFiles(fs, path) && reachable
    ensures r.Failure? && r.error.IllegalArgument? <==> !IsDirectory(fs, path) || !HasGradleFiles(fs, path)
    ensures !IsDirectory(fs, path) ==> r == Failure(IllegalArgument("Project directory does not exist: " + path))
  {
    if !Exists(fs, path) || !IsDirectory(fs, path) then
      Failure(IllegalArgument("Project directory does not exist: " + path))
    else if !HasGradleFiles(fs, path) then
      Failure(IllegalArgument("No Gradle build files found in: " + path))
    else if !reachable then
      Failure(ConnectFailed)
    else
      Success(())
  }

  /**
   * The cache key is canonical for the spellings `java.io.File` folds
   * together: it is its own key, a relative path and its absolute form share
   * a key, and so do paths that differ only by a trailing or a repeated
   * separator.
   */
  lemma {:induction false} KeyIsCanonical(cwd: string, path: string, a: string, b: string)
    requires IsAbsolute(cwd) && IsNormal(cwd)
    ensures AbsolutePath(cwd, AbsolutePath(cwd, path)) == AbsolutePath(cwd, path)
    ensures !IsAbsolute(path) && path != "" ==> AbsolutePath(cwd, path) == AbsolutePath(cwd, Child(cwd, path))
    ensures path != "" ==> AbsolutePath(cwd, path + "/") == AbsolutePath(cwd, path)
    ensures AbsolutePath(cwd, a + "//" + b) == AbsolutePath(cwd, a + "/" + b)
  {
    NormalizeIsNormal(path);
    NormalizeIsNormal(Normalize(path));
    NormalizeIsNormal(cwd);
    if !IsAbsolute(path) && path != "" {
      ChildNormal(cwd, path);
      ChildNormal(cwd, Normalize(path));
    }
    if path != "" {
      TrailingSeparatorIgnored(path);
    }
    RepeatedSeparatorIgnored(a, b);
  }

  // ---------------------------------------------------------------------
  // The cache as a value
  // ---------------------------------------------------------------------

  /**
   * The `connections` map, the next handle the connector will hand out, and
   * every close() call made so far.
   */
  datatype Cache = Cache(entries: map<string, Entry>, nextHandle: Handle, closes: multiset<Handle>)

  ghost predicate DistinctHandles<K>(m: map<K, Entry>) {
    forall k1, k2 :: k1 in m && k2 in m && k1 != k2 ==> m[k1].handle != m[k2].handle
  }

  /** Handles come from the counter, and no two keys share a handle. */
  ghost predicate Inv(c: Cache) {
    && (forall k :: k in c.entries ==> c.entries[k].handle < c.nextHandle)
    && DistinctHandles(c.entries)
    && (forall h :: h in c.closes ==> h < c.nextHandle)
  }

  /**
   * The cache's safety property: no cached entry refers to a closed
   * connection, and no connection is closed twice.
   */
  ghost predicate Healthy(c: Cache) {
    && Inv(c)
    && (forall k :: k in c.entries ==> c.entries[k].handle !in c.closes)
    && (forall h :: h in c.closes ==> c.closes[h] == 1)
  }

  /** A closed connection may still be cached only once its entry has expired. */
  ghost predicate ClosedEntriesExpired(c: Cache, now: nat) {
    forall k :: k in c.entries && c.entries[k].handle in c.closes ==> Expired(c.entries[k], now)
  }

  predicate IsHit(c: Cache, key: string, now: nat) {
    key in c.entries && !Expired(c.entries[key], now)
  }

  /** The connection cached under `key`, as a multiset of zero or one handles. */
  function CachedHandle(c: Cache, key: string): multiset<Handle> {
    if key in c.entries then multiset{c.entries[key].handle} else multiset{}
  }

  /**
   * `getConnection` on the key `key`, as the source does it inside
   * `connections.compute`: a live entry is refreshed and reused; otherwise
   * the old connection, if any, is closed and a new one created. When the
   * creation throws, `compute` leaves the mapping as it was, so an expired
   * entry whose connection was just closed stays in the map.
   */
  function Acquire(c: Cache, key: string, now: nat, fs: FileSystem, reachable: bool): (Cache, Result<Handle, Error>)
  {
    if IsHit(c, key, now) then
      var h := c.entries[key].handle;
      (c.(entries := c.entries[key := Entry(h, now)]), Success(h))
    else
      var closes := c.closes + CachedHandle(c, key);
      match CreateConnection(fs, key, reachable)
      case Failure(e) => (c.(closes := closes), Failure(e))
      case Success(_) =>
        (Cache(c.entries[key := Entry(c.nextHandle, now)], c.nextHandle + 1, closes), Success(c.nextHandle))
  }

  /**
   * What `getConnection` promises: a hit reuses the cached connection and
   * closes nothing; a miss closes the cached connection, if any, and either
   * caches a fresh connection or reports why creation failed, leaving the
   * mapping as it was.
   */
  lemma AcquireContract(c: Cache, key: string, now: nat, fs: FileSystem, reachable: bool)
    ensures var (c', r) := Acquire(c, key, now, fs, reachable);
            && (IsHit(c, key, now) ==>
                  r == Success(c.entries[key].handle) && c'.closes == c.closes && c'.nextHandle == c.nextHandle)
            && (!IsHit(c, key, now) ==> c'.closes == c.closes + CachedHandle(c, key))
            && (!IsHit(c, key, now) ==> (r.Success? <==> CreateConnection(fs, key, reachable).Success?))
            && (!IsHit(c, key, now) && r.Success? ==> r.value == c.nextHandle && c'.nextHandle == c.nextHandle + 1)
            && (r.Success? ==> c'.entries == c.entries[key := Entry(r.value, now)])
            && (r.Failure? ==> c'.entries == c.entries && c'.nextHandle == c.nextHandle)
            && (r.Failure? ==> r.error == CreateConnection(fs, key, reachable).error)
  {
  }

  /** A live entry is refreshed and its connection reused. */
  lemma AcquireHit(c: Cache, key: string, now: nat, fs: FileSystem, reachable: bool)
    requires IsHit(c, key, now)
    ensures Acquire(c, key, now, fs, reachable) ==
            (c.(entries := c.entries[key := Entry(c.entries[key].handle, now)]), Success(c.entries[key].handle))
  {
  }

  /** A miss whose creation throws closes the old connection and keeps the mapping. */
  lemma AcquireMissFails(c: Cache, key: string, now: nat, fs: FileSystem, reachable: bool)
    requires !IsHit(c, key, now) && CreateConnection(fs, key, reachable).Failure?
    ensures Acquire(c, key, now, fs, reachable) ==
            (c.(closes := c.closes + CachedHandle(c, key)), Failure(CreateConnection(fs, key, reachable).error))
  {
  }

  /** A miss whose creation succeeds caches the next connection. */
  lemma AcquireMissCreates(c: Cache, key: string, now: nat, fs: FileSystem, reachable: bool)
    requires !IsHit(c, key, now) && CreateConnection(fs, key, reachable).Success?
    ensures Acquire(c, key, now, fs, reachable) ==
            (Cache(c.entries[key := Entry(c.nextHandle, now)], c.nextHandle + 1, c.closes + CachedHandle(c, key)), Success(c.nextHandle))
  {
  }

  /**
   * `getConnection` with the mapping removed when creation fails after the
   * old connection was closed, so that the cache keeps its safety property:
   * no entry holding a closed connection survives a failed acquire.
   */
  function AcquireEvicting(c: Cache, key: string, now: nat, fs: FileSystem, reachable: bool): (r: (Cache, Result<Handle, Error>))
    ensures r.1 == Acquire(c, key, now, fs, reachable).1
    ensures r.1.Success? ==> r.0 == Acquire(c, key, now, fs, reachable).0
    ensures r.1.Failure? ==> r.0.entries == c.entries - {key} && r.0.closes == c.closes + CachedHandle(c, key)
  {
    var (c', result) := Acquire(c, key, now, fs, reachable);
    if result.Success? then (c', result) else (c'.(entries := c'.entries - {key}), result)
  }

  /** `closeConnection` on the key `key`: remove the entry, then close its connection. */
  function Release(c: Cache, key: string): (r: Cache)
    ensures key !in c.entries ==> r == c
    ensures r.entries == c.entries - {key}
    ensures r.closes == c.closes + CachedHandle(c, key)
    ensures r.nextHandle == c.nextHandle
  {
    if key in c.entries then
      Cache(c.entries - {key}, c.nextHandle, c.closes + multiset{c.entries[key].handle})
    else c
  }

  /** The connections cached under the keys `ks`. */
  function HandlesIn<K>(m: map<K, Entry>, ks: set<K>): set<Handle> {
    set k | k in ks && k in m :: m[k].handle
  }

  /** The connections cached under the keys `ks` whose entries have expired. */
  function ExpiredHandlesIn<K>(m: map<K, Entry>, ks: set<K>, now: nat): set<Handle> {
    set k | k in ks && k in m && Expired(m[k], now) :: m[k].handle
  }

  /** `closeAll`: every cached connection closed once, and the map emptied. */
  function CloseAllEntries(c: Cache): Cache
  {
    Cache(map[], c.nextHandle, c.closes + multiset(HandlesIn(c.entries, c.entries.Keys)))
  }

  /** One pass of the cleanup thread: every expired entry removed and its connection closed. */
  function Sweep(c: Cache, now: nat): Cache
  {
    Cache(map k | k in c.entries && !Expired(c.entries[k], now) :: c.entries[k],
          c.nextHandle,
          c.closes + multiset(ExpiredHandlesIn(c.entries, c.entries.Keys, now)))
  }

  /** A connection handle cached under some key. */
  ghost predicate IsCached(m: map<string, Entry>, h: Handle) {
    exists k :: k in m && m[k].handle == h
  }

  /**
   * `closeAll` empties the map and closes every cached connection once
   * more, and no other connection.
   */
  lemma CloseAllContract(c: Cache)
    requires DistinctHandles(c.entries)
    ensures CloseAllEntries(c).entries == map[]
    ensures CloseAllEntries(c).nextHandle == c.nextHandle
    ensures forall k :: k in c.entries ==>
              CloseAllEntries(c).closes[c.entries[k].handle] == c.closes[c.entries[k].handle] + 1
    ensures forall h :: !IsCached(c.entries, h) ==> CloseAllEntries(c).closes[h] == c.closes[h]
  {
  }

  /**
   * A sweep keeps exactly the live entries, unchanged, and closes the
   * connection of every expired entry once more, and no other connection.
   */
  lemma SweepContract(c: Cache, now: nat)
    requires DistinctHandles(c.entries)
    ensures forall k :: k in Sweep(c, now).entries <==> k in c.entries && !Expired(c.entries[k], now)
    ensures forall k :: k in Sweep(c, now).entries ==> Sweep(c, now).entries[k] == c.entries[k]
    ensures forall k :: k in c.entries && Expired(c.entries[k], now) ==>
              Sweep(c, now).closes[c.entries[k].handle] == c.closes[c.entries[k].handle] + 1
    ensures forall h :: !IsCached(c.entries, h) ==> Sweep(c, now).closes[h] == c.closes[h]
    ensures forall k :: k in c.entries && !Expired(c.entries[k], now) ==>
              Sweep(c, now).closes[c.entries[k].handle] == c.closes[c.entries[k].handle]
    ensures Sweep(c, now).nextHandle == c.nextHandle
  {
  }

  // ---------------------------------------------------------------------
  // Properties of the cache
  // ---------------------------------------------------------------------

  /** Adding the connection of one more key to a set of distinct connections. */
  lemma {:induction false} HandlesInAddKey<K>(m: map<K, Entry>, ks: set<K>, k: K)
    requires DistinctHandles(m) && k in m && k !in ks
    ensures multiset(HandlesIn(m, ks + {k})) == multiset(HandlesIn(m, ks)) + multiset{m[k].handle}
  {
    assert HandlesIn(m, ks + {k}) == HandlesIn(m, ks) + {m[k].handle};
    assert m[k].handle !in HandlesIn(m, ks);
  }

  /** The same, for the expired connections of one more key. */
  lemma {:induction false} ExpiredHandlesInAddKey<K>(m: map<K, Entry>, ks: set<K>, k: K, now: nat, log: multiset<Handle>)
    requires DistinctHandles(m) && k in m && k !in ks
    ensures Expired(m[k], now) ==>
              log + multiset(ExpiredHandlesIn(m, ks + {k}, now)) == log + multiset(ExpiredHandlesIn(m, ks, now)) + multiset{m[k].handle}
    ensures !Expired(m[k], now) ==>
              log + multiset(ExpiredHandlesIn(m, ks + {k}, now)) == log + multiset(ExpiredHandlesIn(m, ks, now))
  {
    assert ExpiredHandlesIn(m, ks + {k}, now) ==
             ExpiredHandlesIn(m, ks, now) + (if Expired(m[k], now) then {m[k].handle} else {});
    assert m[k].handle !in ExpiredHandlesIn(m, ks, now);
  }

  lemma {:induction false} AcquireKeepsInv(c: Cache, key: string, now: nat, fs: FileSystem, reachable: bool)
    requires Inv(c)
    ensures Inv(Acquire(c, key, now, fs, reachable).0)
  {
  }

  lemma {:induction false} SweepKeepsInv(c: Cache, now: nat)
    requires Inv(c)
    ensures Inv(Sweep(c, now))
  {
    var r := Sweep(c, now);
    forall h | h in r.closes ensures h < r.nextHandle {
      if h in ExpiredHandlesIn(c.entries, c.entries.Keys, now) {
        var k :| k in c.entries && Expired(c.entries[k], now) && c.entries[k].handle == h;
      }
    }
  }

  /**
   * As written, `getConnection` never returns a closed connection, provided
   * the clock has not gone back: a closed connection is cached only when its
   * entry has expired, which rules out a hit on it, and that stays so at any
   * later time.
   */
  lemma {:induction false} AcquireNeverReturnsClosed(c: Cache, key: string, now: nat, fs: FileSystem, reachable: bool, later: nat)
    requires Inv(c) && ClosedEntriesExpired(c, now) && now <= later
    ensures var (c', r) := Acquire(c, key, now, fs, reachable);
            (r.Success? ==> r.value !in c'.closes) && ClosedEntriesExpired(c', later)
  {
    var (c', r) := Acquire(c, key, now, fs, reachable);
    forall k | k in c'.entries && c'.entries[k].handle in c'.closes
      ensures Expired(c'.entries[k], later)
    {
      if r.Failure? || k != key {
        assert c'.entries[k] == c.entries[k];
        if c.entries[k].handle !in c.closes {
          assert k == key;
        }
      }
    }
  }

  /**
   * As written, a failed re-creation after expiry leaves a closed connection
   * in the map, and closing the project afterwards closes that connection a
   * second time.
   */
  lemma FailedReplacementKeepsClosedConnection()
    ensures var fs := FileSystem({"/p", "/p/build.gradle"}, {"/p"});
            var c0 := Cache(map[], 0, multiset{});
            var (c1, r1) := Acquire(c0, "/p", 0, fs, true);
            var (c2, r2) := Acquire(c1, "/p", ConnectionTimeoutMs + 1, fs, false);
            && r1 == Success(0)
            && r2 == Failure(ConnectFailed)
            && "/p" in c2.entries && c2.entries["/p"].handle == 0 && 0 in c2.closes
            && !Healthy(c2)
            && Release(c2, "/p").closes[0] == 2
  {
    var fs := FileSystem({"/p", "/p/build.gradle"}, {"/p"});
    assert Child("/p", BuildFileNames[0]) == "/p/build.gradle";
    assert HasGradleFiles(fs, "/p");
  }

  /** The corrected acquire keeps the cache healthy, and never returns a closed connection. */
  lemma {:induction false} AcquireEvictingKeepsHealthy(c: Cache, key: string, now: nat, fs: FileSystem, reachable: bool)
    requires Healthy(c)
    ensures var (c', r) := AcquireEvicting(c, key, now, fs, reachable);
            Healthy(c') && (r.Success? ==> r.value !in c'.closes)
  {
    var (c', r) := AcquireEvicting(c, key, now, fs, reachable);
    AcquireKeepsInv(c, key, now, fs, reachable);
    if !IsHit(c, key, now) && key in c.entries {
      var h := c.entries[key].handle;
      assert c'.closes == c.closes + multiset{h};
      forall k | k in c'.entries ensures c'.entries[k].handle !in c'.closes {
        if k != key {
          assert c'.entries[k] == c.entries[k];
        }
      }
    }
  }

  lemma {:induction false} ReleaseKeepsHealthy(c: Cache, key: string)
    requires Healthy(c)
    ensures Healthy(Release(c, key))
  {
    var r := Release(c, key);
    if key in c.entries {
      var h := c.entries[key].handle;
      forall k | k in r.entries ensures r.entries[k].handle !in r.closes {
        assert r.entries[k] == c.entries[k];
      }
    }
  }

  lemma {:induction false} CloseAllKeepsHealthy(c: Cache)
    requires Healthy(c)
    ensures Healthy(CloseAllEntries(c))
  {
    var s := HandlesIn(c.entries, c.entries.Keys);
    var r := CloseAllEntries(c);
    forall h | h in r.closes ensures r.closes[h] == 1 && h < r.nextHandle {
      if h in s {
        var k :| k in c.entries && c.entries[k].handle == h;
        assert h !in c.closes;
      }
    }
  }

  lemma {:induction false} SweepKeepsHealthy(c: Cache, now: nat)
    requires Healthy(c)
    ensures Healthy(Sweep(c, now))
  {
    var s := ExpiredHandlesIn(c.entries, c.entries.Keys, now);
    var r := Sweep(c, now);
    forall h | h in r.closes ensures r.closes[h] == 1 && h < r.nextHandle {
      if h in s {
        var k :| k in c.entries && Expired(c.entries[k], now) && c.entries[k].handle == h;
        assert h !in c.closes;
      }
    }
    forall k | k in r.entries ensures r.entries[k].handle !in r.closes {
      assert r.entries[k].handle !in c.closes;
    }
  }

  /** A second sweep at the same time removes and closes nothing. */
  lemma {:induction false} SweepIdempotent(c: Cache, now: nat)
    ensures Sweep(Sweep(c, now), now) == Sweep(c, now)
  {
    var r := Sweep(c, now);
    assert ExpiredHandlesIn(r.entries, r.entries.Keys, now) == {};
    assert (map k | k in r.entries && !Expired(r.entries[k], now) :: r.entries[k]) == r.entries;
  }

  /** One request to the cache, as the handlers and the cleanup thread make them. */
  datatype Op =
    | Get(path: string, now: nat, fs: FileSystem, reachable: bool)
    | Close(path: string)
    | CloseEverything
    | Cleanup(now: nat)

  /** The cache after `op`, with the corrected acquire. */
  function Step(c: Cache, cwd: string, op: Op): Cache {
    match op
    case Get(path, now, fs, reachable) => AcquireEvicting(c, AbsolutePath(cwd, path), now, fs, reachable).0
    case Close(path) => Release(c, AbsolutePath(cwd, path))
    case CloseEverything => CloseAllEntries(c)
    case Cleanup(now) => Sweep(c, now)
  }

  function Run(c: Cache, cwd: string, ops: seq<Op>): Cache
    decreases |ops|
  {
    if ops == [] then c else Run(Step(c, cwd, ops[0]), cwd, ops[1..])
  }

  /**
   * With the corrected acquire, every sequence of requests keeps the cache
   * healthy: starting from the empty cache, no connection is ever closed
   * twice and no cached entry ever refers to a closed connection.
   */
  lemma {:induction false} RunKeepsHealthy(c: Cache, cwd: string, ops: seq<Op>)
    requires Healthy(c)
    ensures Healthy(Run(c, cwd, ops))
    decreases |ops|
  {
    if ops != [] {
      match ops[0] {
        case Get(path, now, fs, reachable) => AcquireEvictingKeepsHealthy(c, AbsolutePath(cwd, path), now, fs, reachable);
        case Close(path) => ReleaseKeepsHealthy(c, AbsolutePath(cwd, path));
        case CloseEverything => CloseAllKeepsHealthy(c);
        case Cleanup(now) => SweepKeepsHealthy(c, now);
      }
      RunKeepsHealthy(Step(c, cwd, ops[0]), cwd, ops[1..]);
    }
  }

  // ---------------------------------------------------------------------
  // The imperative cache
  // ---------------------------------------------------------------------

  /** Storing `v` under `k` adds no value to a map other than `v`. */
  lemma UpdatedValues<K, V>(m: map<K, V>, k: K, v: V)
    ensures m[k := v].Values <= m.Values + {v}
  {
    forall x | x in m[k := v].Values ensures x in m.Values + {v} {
      var j :| j in m[k := v] && m[k := v][j] == x;
      if j != k {
        assert m[j] == x;
      }
    }
  }

  /** `CachedConnection`: a connection and the time it was last used, updated in place. */
  class CachedConnection {
    const connection: Handle
    var lastUsed: nat

    constructor (connection: Handle, now: nat)
      ensures this.connection == connection && lastUsed == now
    {
      this.connection := connection;
      lastUsed := now;
    }

    method UpdateLastUsed(now: nat)
      modifies this
      ensures lastUsed == now
    {
      lastUsed := now;
    }

    predicate IsExpired(now: nat)
      reads this
    {
      Expired(Entry(connection, lastUsed), now)
    }
  }

  /** `GradleConnectionManager`, for a JVM whose working directory is `workingDir`. */
  class ConnectionManager {
    const workingDir: string
    var connections: map<string, CachedConnection>
    /** The id the connector gives the next connection it creates. */
    var nextHandle: Handle
    /** The entries of `connections`, as values. */
    ghost var entries: map<string, Entry>
    /** Every close() call made on a connection. */
    ghost var closes: multiset<Handle>

    /** The objects of `connections` mirror `entries`, and no object is shared by two keys. */
    ghost predicate Mirrors()
      reads this`connections, this`entries, connections.Values
    {
      && entries.Keys == connections.Keys
      && (forall k :: k in connections ==> entries[k] == Entry(connections[k].connection, connections[k].lastUsed))
      && (forall k1, k2 :: k1 in connections && k2 in connections && k1 != k2 ==> connections[k1] != connections[k2])
    }

    ghost predicate Valid()
      reads this, connections.Values
    {
      IsAbsolute(workingDir) && IsNormal(workingDir) && Mirrors() && Inv(Abstract())
    }

    /** The cache this manager holds, as a value. */
    ghost function Abstract(): Cache
      reads this
    {
      Cache(entries, nextHandle, closes)
    }

    /** The cache key of a project path. */
    function Key(projectPath: string): string {
      AbsolutePath(workingDir, projectPath)
    }

    constructor (workingDir: string)
      requires IsAbsolute(workingDir) && IsNormal(workingDir)
      ensures Valid() && this.workingDir == workingDir
      ensures Abstract() == Cache(map[], 0, multiset{})
    {
      this.workingDir := workingDir;
      connections := map[];
      nextHandle := 0;
      entries := map[];
      closes := multiset{};
    }

    /** `getConnection`. */
    method GetConnection(projectPath: string, now: nat, fs: FileSystem, reachable: bool) returns (r: Result<Handle, Error>)
      requires Valid()
      modifies this, connections.Values
      ensures Valid()
      ensures (Abstract(), r) == Acquire(old(Abstract()), Key(projectPath), now, fs, reachable)
      ensures fresh(connections.Values - old(connections.Values))
    {
      var key := AbsolutePath(workingDir, projectPath);
      ghost var before := Abstract();
      AcquireKeepsInv(before, key, now, fs, reachable);
      if key in connections && !connections[key].IsExpired(now) {
        assert IsHit(before, key, now);
        AcquireHit(before, key, now, fs, reachable);
        var h := Refresh(key, now);
        assert Abstract() == Acquire(before, key, now, fs, reachable).0;
        return Success(h);
      }
      assert !IsHit(before, key, now);
      if key in connections {
        // The expired connection is closed; a failure to close is only logged.
        closes := closes + multiset{connections[key].connection};
      }
      assert closes == before.closes + CachedHandle(before, key);
      var created := CreateConnection(fs, key, reachable);
      if created.Failure? {
        AcquireMissFails(before, key, now, fs, reachable);
        assert Abstract() == Acquire(before, key, now, fs, reachable).0;
        return Failure(created.error);
      }
      AcquireMissCreates(before, key, now, fs, reachable);
      ghost var kept := connections;
      var h := Store(key, now);
      UpdatedValues(kept, key, connections[key]);
      assert Abstract() == Acquire(before, key, now, fs, reachable).0;
      return Success(h);
    }

    /** `updateLastUsed` on the live entry under `key`; returns its connection. */
    method Refresh(key: string, now: nat) returns (h: Handle)
      requires Mirrors() && key in connections
      modifies connections[key], this`entries
      ensures Mirrors()
      ensures h == old(entries)[key].handle && entries == old(entries)[key := Entry(h, now)]
    {
      var existing := connections[key];
      existing.UpdateLastUsed(now);
      entries := entries[key := Entry(existing.connection, now)];
      forall k | k in connections && k != key
        ensures connections[k].lastUsed == old(connections[k].lastUsed)
      {
        assert connections[k] != existing;
      }
      h := existing.connection;
    }

    /** Caches a new connection under `key`, replacing any entry there; returns it. */
    method Store(key: string, now: nat) returns (h: Handle)
      requires Mirrors()
      modifies this`connections, this`entries, this`nextHandle
      ensures Mirrors()
      ensures h == old(nextHandle) && nextHandle == h + 1 && entries == old(entries)[key := Entry(h, now)]
      ensures key in connections && fresh(connections[key]) && connections == old(connections)[key := connections[key]]
    {
      var cached := new CachedConnection(nextHandle, now);
      connections := connections[key := cached];
      entries := entries[key := Entry(nextHandle, now)];
      h := nextHandle;
      nextHandle := nextHandle + 1;
    }

    /** `closeConnection`. */
    method CloseConnection(projectPath: string)
      requires Valid()
      modifies this
      ensures Valid()
      ensures Abstract() == Release(old(Abstract()), Key(projectPath))
    {
      var key := AbsolutePath(workingDir, projectPath);
      if key in connections {
        var cached := connections[key];
        connections := connections - {key};
        entries := entries - {key};
        // A failure to close is only logged.
        closes := closes + multiset{cached.connection};
      }
    }

    /** `closeAll`: close every connection, whatever happens to each close, then clear the map. */
    method CloseAll()
      requires Valid()
      modifies this
      ensures Valid()
      ensures Abstract() == CloseAllEntries(old(Abstract()))
    {
      CloseEach(connections);
      assert connections.Keys == entries.Keys;
      connections := map[];
      entries := map[];
    }

    /** Closes the connection of every entry of `cached`, one after another. */
    method CloseEach(cached: map<string, CachedConnection>)
      requires forall k :: k in cached ==> k in entries && entries[k].handle == cached[k].connection
      requires DistinctHandles(entries)
      modifies this`closes
      ensures closes == old(closes) + multiset(HandlesIn(entries, cached.Keys))
    {
      var todo := cached.Keys;
      ghost var done: set<string> := {};
      while todo != {}
        invariant forall k :: k in cached <==> k in done || k in todo
        invariant done !! todo
        invariant closes == old(closes) + multiset(HandlesIn(entries, done))
        decreases todo
      {
        var key :| key in todo;
        HandlesInAddKey(entries, done, key);
        closes := closes + multiset{cached[key].connection};
        todo := todo - {key};
        done := done + {key};
      }
      assert done == cached.Keys;
    }

    /** The cleanup thread's pass: evict and close every expired entry. */
    method CleanupStaleConnections(now: nat)
      requires Valid()
      modifies this
      ensures Valid()
      ensures Abstract() == Sweep(old(Abstract()), now)
    {
      ghost var before := Abstract();
      SweepKeepsInv(before, now);
      var kept, keptEntries, closed := RemoveExpired(connections, entries, now);
      connections := kept;
      entries := keptEntries;
      closes := closes + closed;
    }
  }

  /**
   * The `removeIf` loop over `cached`, whose entries as values are `m`:
   * returns the entries that have not expired, and the connections it
   * closed, one per expired entry.
   */
  method RemoveExpired<K>(cached: map<K, CachedConnection>, ghost m: map<K, Entry>, now: nat)
    returns (kept: map<K, CachedConnection>, ghost keptEntries: map<K, Entry>, ghost closed: multiset<Handle>)
    requires m.Keys == cached.Keys
    requires forall k :: k in cached ==> m[k] == Entry(cached[k].connection, cached[k].lastUsed)
    requires DistinctHandles(m)
    ensures forall k :: k in kept <==> k in cached && !Expired(m[k], now)
    ensures forall k :: k in kept ==> kept[k] == cached[k]
    ensures keptEntries == (map k | k in m && !Expired(m[k], now) :: m[k])
    ensures keptEntries.Keys == kept.Keys
    ensures closed == multiset(ExpiredHandlesIn(m, m.Keys, now))
  {
    kept := cached;
    closed := multiset{};
    var todo := cached.Keys;
    ghost var done: set<K> := {};
    while todo != {}
      invariant forall k :: k in cached <==> k in done || k in todo
      invariant done !! todo
      invariant forall k :: k in kept <==> k in cached && (k in todo || !Expired(m[k], now))
      invariant forall k :: k in kept ==> kept[k] == cached[k]
      invariant closed == multiset(ExpiredHandlesIn(m, done, now))
      decreases todo
    {
      var key :| key in todo;
      ExpiredHandlesInAddKey(m, done, key, now, multiset{});
      if cached[key].IsExpired(now) {
        kept := kept - {key};
        // A failure to close is only logged.
        closed := closed + multiset{cached[key].connection};
      }
      todo := todo - {key};
      done := done + {key};
    }
    assert done == m.Keys;
    keptEntries := map k | k in kept :: m[k];
  }
}
