/**
 * The D1 migration script (scripts/migrate-d1.js): list the `.sql` files of
 * the migrations directory, order them by their numeric prefix, and run
 * `npx wrangler d1 execute` on each in turn, stopping at the first failure.
 * The command line, the directory listing and the exit of each spawned
 * process are parameters; the commands the script spawns are returned.
 */
module MigrateD1 {
  import opened Common
  import opened Uri

  // ---------------------------------------------------------------------
  // Command line

  /** `args.includes('--local')`. */
  predicate IsLocal(argv: seq<string>)
  {
    "--local" in argv
  }

  /** The first argument starting with `--db=`, if any. */
  function FindDbArg(argv: seq<string>): (r: Option<string>)
    ensures r.Some? ==> r.value in argv && StartsWith(r.value, "--db=")
    ensures r.None? <==> forall k :: 0 <= k < |argv| ==> !StartsWith(argv[k], "--db=")
    ensures r.Some? ==>
      exists k :: (0 <= k < |argv| && argv[k] == r.value &&
                   forall j :: 0 <= j < k ==> !StartsWith(argv[j], "--db="))
  {
    if argv == [] then None
    else if StartsWith(argv[0], "--db=") then Some(argv[0])
    else
      var r := FindDbArg(argv[1..]);
      assert forall k :: 1 <= k < |argv| ==> argv[k] == argv[1..][k - 1];
      if r.Some? then
        var k :| 0 <= k < |argv[1..]| && argv[1..][k] == r.value && forall j :: 0 <= j < k ==> !StartsWith(argv[1..][j], "--db=");
        assert argv[k + 1] == r.value;
        r
      else r
  }

  /** `find(...)?.split('=')[1] || 'user_profiles'`. */
  function DbName(argv: seq<string>): (db: string)
    ensures db != ""
    ensures FindDbArg(argv).None? ==> db == "user_profiles"
    // the text after `--db=` up to the next `=`, unless that is empty
    ensures FindDbArg(argv).Some? ==>
      var rest := FindDbArg(argv).value[5..];
      db == if IndexOf(rest, '=') == 0 then "user_profiles" else rest[..IndexOf(rest, '=')]
  {
    match FindDbArg(argv)
    case None => "user_profiles"
    case Some(arg) =>
      var parts := SplitOn(arg, '=');
      DbArgParts(arg);
      OrElse(Some(parts[1]), "user_profiles")
  }

  /** How `--db=rest` splits on `=`. */
  lemma DbArgParts(arg: string)
    requires StartsWith(arg, "--db=")
    ensures |SplitOn(arg, '=')| >= 2
    ensures SplitOn(arg, '=')[1] == arg[5..][..IndexOf(arg[5..], '=')]
  {
    assert arg == "--db" + ['='] + arg[5..];
    assert '=' !in "--db";
    SplitOnPrefix("--db", arg[5..], '=');
    var rest := arg[5..];
    var i := IndexOf(rest, '=');
    assert SplitOn(rest, '=')[0] == rest[..i];
  }

  // ---------------------------------------------------------------------
  // The migration files

  /** `parseInt(name.split('_')[0], 10) || 0`. */
  function MigrationNumber(name: string): (n: int)
    ensures ParseInt(SplitOn(name, '_')[0], Ten).Some? ==> n == ParseInt(SplitOn(name, '_')[0], Ten).value
    ensures ParseInt(SplitOn(name, '_')[0], Ten).None? ==> n == 0
  {
    match ParseInt(SplitOn(name, '_')[0], Ten)
    case Some(v) => if v != 0 then v else 0
    case None => 0
  }

  /** A file named `<n>_<rest>` carries the number `n`, whatever follows the first `_`. */
  lemma MigrationNumberOf(n: nat, rest: string)
    ensures MigrationNumber(NatToString(n) + "_" + rest) == n
  {
    var d := NatToString(n);
    assert '_' !in d by {
      forall k | 0 <= k < |d| ensures d[k] != '_' {
        assert IsDigit(d[k]);
      }
    }
    assert d + "_" + rest == d + ['_'] + rest;
    SplitOnPrefix(d, rest, '_');
    ParseIntOfIntToString(n, Ten);
  }

  /** `files.filter(file => file.endsWith('.sql'))`. */
  function SqlFiles(files: seq<string>): (r: seq<string>)
    ensures forall k :: 0 <= k < |r| ==> EndsWith(r[k], ".sql")
    ensures forall f :: f in r <==> f in files && EndsWith(f, ".sql")
    ensures |r| <= |files|
  {
    if files == [] then []
    else (if EndsWith(files[0], ".sql") then [files[0]] else []) + SqlFiles(files[1..])
  }

  /** Ascending by `key`. */
  predicate SortedBy(s: seq<string>, key: string -> int)
  {
    forall i, j :: 0 <= i < j < |s| ==> key(s[i]) <= key(s[j])
  }

  /** The elements of `s` whose key is `n`, in order. */
  function WithKey(s: seq<string>, key: string -> int, n: int): seq<string>
  {
    if s == [] then []
    else (if key(s[0]) == n then [s[0]] else []) + WithKey(s[1..], key, n)
  }

  /** Put `x` before the first element whose key is at least its own. */
  function Insert(x: string, t: seq<string>, key: string -> int): (r: seq<string>)
    ensures multiset(r) == multiset(t) + multiset{x}
    ensures |r| == |t| + 1
  {
    if t == [] || key(x) <= key(t[0]) then [x] + t
    else
      var r := [t[0]] + Insert(x, t[1..], key);
      assert t == [t[0]] + t[1..];
      r
  }

  /** A stable sort by `key`, written as an insertion sort. */
  function SortBy(s: seq<string>, key: string -> int): (r: seq<string>)
    ensures multiset(r) == multiset(s)
  {
    if s == [] then []
    else
      var r := Insert(s[0], SortBy(s[1..], key), key);
      assert s == [s[0]] + s[1..];
      r
  }

  lemma {:induction false} InsertSorted(x: string, t: seq<string>, key: string -> int)
    requires SortedBy(t, key)
    ensures SortedBy(Insert(x, t, key), key)
    decreases |t|
  {
    if t != [] && key(x) > key(t[0]) {
      InsertSorted(x, t[1..], key);
      var r := Insert(x, t[1..], key);
      forall k | 0 <= k < |r| ensures key(t[0]) <= key(r[k]) {
        assert r[k] in multiset(t[1..]) + multiset{x};
        if r[k] in multiset(t[1..]) {
          var j :| 0 <= j < |t[1..]| && t[1..][j] == r[k];
          assert t[j + 1] == r[k];
        }
      }
    }
  }

  /** The sorted elements are in ascending order of key. */
  lemma {:induction false} SortSorted(s: seq<string>, key: string -> int)
    ensures SortedBy(SortBy(s, key), key)
    decreases |s|
  {
    if s != [] {
      SortSorted(s[1..], key);
      InsertSorted(s[0], SortBy(s[1..], key), key);
    }
  }

  lemma {:induction false} InsertWithKey(x: string, t: seq<string>, key: string -> int, n: int)
    ensures WithKey(Insert(x, t, key), key, n) == (if key(x) == n then [x] else []) + WithKey(t, key, n)
    decreases |t|
  {
    if t == [] || key(x) <= key(t[0]) {
      assert ([x] + t)[1..] == t;
    } else {
      // `x` only passes elements with a smaller key, none of which is kept for `key(x)`
      InsertWithKey(x, t[1..], key, n);
      assert ([t[0]] + Insert(x, t[1..], key))[1..] == Insert(x, t[1..], key);
    }
  }

  /** Elements with equal keys keep their original order. */
  lemma {:induction false} SortStable(s: seq<string>, key: string -> int, n: int)
    ensures WithKey(SortBy(s, key), key, n) == WithKey(s, key, n)
    decreases |s|
  {
    if s != [] {
      SortStable(s[1..], key, n);
      InsertWithKey(s[0], SortBy(s[1..], key), key, n);
    }
  }

  /** `path.join(dir, file)` for a file name read from the directory. */
  function PathJoin(dir: string, file: string): string
  {
    dir + "/" + file
  }

  /**
   * `getMigrationFiles()`: the directory listing, None when reading the
   * directory fails.
   */
  function MigrationFiles(migrationsDir: string, listing: Option<seq<string>>): (paths: seq<string>)
    ensures listing.None? ==> paths == []
    ensures listing.Some? ==>
      var sorted := SortBy(SqlFiles(listing.value), MigrationNumber);
      |paths| == |sorted| && forall k :: 0 <= k < |paths| ==> paths[k] == PathJoin(migrationsDir, sorted[k])
  {
    match listing
    case None => []
    case Some(files) =>
      var sorted := SortBy(SqlFiles(files), MigrationNumber);
      seq(|sorted|, k requires 0 <= k < |sorted| => PathJoin(migrationsDir, sorted[k]))
  }

  /** The ordered list holds exactly the `.sql` files of the listing, each once per listing. */
  lemma MigrationOrder(files: seq<string>)
    ensures var sorted := SortBy(SqlFiles(files), MigrationNumber);
      SortedBy(sorted, MigrationNumber) &&
      multiset(sorted) == multiset(SqlFiles(files)) &&
      (forall f :: f in sorted <==> f in files && EndsWith(f, ".sql")) &&
      forall n :: WithKey(sorted, MigrationNumber, n) == WithKey(SqlFiles(files), MigrationNumber, n)
  {
    var sql := SqlFiles(files);
    var sorted := SortBy(sql, MigrationNumber);
    SortSorted(sql, MigrationNumber);
    forall n ensures WithKey(sorted, MigrationNumber, n) == WithKey(sql, MigrationNumber, n) {
      SortStable(sql, MigrationNumber, n);
    }
    forall f ensures f in sorted <==> f in sql {
      assert f in sorted <==> f in multiset(sorted);
      assert f in sql <==> f in multiset(sql);
    }
  }

  // ---------------------------------------------------------------------
  // Running the migrations

  /** The arguments of `npx` for one file. */
  function Command(dbName: string, sqlFile: string, local: bool): (args: seq<string>)
    ensures |args| == (if local then 7 else 6)
    ensures args[..6] == ["wrangler", "d1", "execute", dbName, "--file", sqlFile]
    ensures local ==> args[6] == "--local"
  {
    ["wrangler", "d1", "execute", dbName, "--file", sqlFile] + (if local then ["--local"] else [])
  }

  /** `runMigration`'s argument list, built by pushing `--local` when asked. */
  method WranglerArgs(dbName: string, sqlFile: string, local: bool) returns (args: seq<string>)
    ensures args == Command(dbName, sqlFile, local)
  {
    args := ["wrangler", "d1", "execute", dbName, "--file", sqlFile];
    if local {
      args := args + ["--local"];
    }
  }

  /** How a spawned `npx` ends: its exit code, or an `error` event. */
  datatype Exit = Exited(code: int) | SpawnError

  /** The index of the first migration that does not exit with 0, or the number of migrations. */
  function FirstFailure(exits: seq<Exit>): (i: nat)
    ensures i <= |exits|
    ensures forall k :: 0 <= k < i ==> exits[k] == Exited(0)
    ensures i < |exits| ==> exits[i] != Exited(0)
  {
    if exits == [] then 0
    else if exits[0] != Exited(0) then 0
    else 1 + FirstFailure(exits[1..])
  }

  /** The `for` loop of `main()`: run each file in order and stop at the first failure. */
  method RunInOrder(files: seq<string>, dbName: string, local: bool, exits: seq<Exit>)
    returns (commands: seq<seq<string>>, status: int)
    requires |exits| == |files|
    ensures var ran := if FirstFailure(exits) < |files| then FirstFailure(exits) + 1 else |files|;
      |commands| == ran &&
      forall k :: 0 <= k < ran ==> commands[k] == Command(dbName, files[k], local)
    ensures status == 0 <==> FirstFailure(exits) == |files|
    ensures status == 0 || status == 1
  {
    commands := [];
    status := 0;
    var i := 0;
    while i < |files|
      invariant 0 <= i <= |files| && i <= FirstFailure(exits)
      invariant |commands| == i
      invariant forall k :: 0 <= k < i ==> commands[k] == Command(dbName, files[k], local)
    {
      var args := WranglerArgs(dbName, files[i], local);
      commands := commands + [args];
      if exits[i] != Exited(0) {
        status := 1;
        return;
      }
      i := i + 1;
    }
  }

  /**
   * `main()`: with no files, nothing runs and the script ends normally;
   * otherwise one `npx` per file in order, stopping after the first
   * failure, which makes the script exit with status 1. `exits[k]` is how
   * the k-th spawned process ends.
   */
  method RunMigrations(argv: seq<string>, migrationsDir: string, listing: Option<seq<string>>, exits: seq<Exit>)
    returns (commands: seq<seq<string>>, status: int)
    requires |exits| == |MigrationFiles(migrationsDir, listing)|
    ensures var files := MigrationFiles(migrationsDir, listing);
      var ran := if FirstFailure(exits) < |files| then FirstFailure(exits) + 1 else |files|;
      |commands| == ran &&
      forall k :: 0 <= k < ran ==> commands[k] == Command(DbName(argv), files[k], IsLocal(argv))
    ensures status == 0 <==> FirstFailure(exits) == |MigrationFiles(migrationsDir, listing)|
    ensures status == 0 || status == 1
  {
    var files := MigrationFiles(migrationsDir, listing);
    if |files| == 0 {
      return [], 0;
    }
    commands, status := RunInOrder(files, DbName(argv), IsLocal(argv), exits);
  }
}
