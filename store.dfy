/**
 * The file-backed account store (`FileAccountStore`, kp.go:170-261).
 *
 * The disk is a map from path to contents, held by a `FileSystem` object
 * whose methods stand for the `os` calls the store makes. Directories are
 * not modelled: `MkdirAll` and `Stat` only report. Which calls the
 * operating system refuses is fixed per object (`faulty`), so that every
 * error path of the store can be stated. JSON encoding is a pair of
 * functions given as a parameter, and the clock is a `DateTime` argument.
 */
module Store {
  import opened Wrappers
  import opened Errors
  import opened Cipher
  import opened KeyPair
  import opened Account
  import opened Rfc3339

  type Files = map<string, Bytes>

  /** The error an OS call returned, if any, and the files afterwards. */
  datatype FsOutcome = FsOutcome(err: Option<Error>, files: Files)

  /** What `os.Stat` reports: the path exists, does not exist, or the call failed otherwise. */
  datatype StatResult = Exists | Missing | StatFailed

  function StatOf(files: Files, faulty: set<OsCall>, path: string): StatResult
  {
    if OsCall.Stat(path) in faulty then StatFailed
    else if path in files then Exists
    else Missing
  }

  function MkdirOf(faulty: set<OsCall>, dir: string): Option<Error>
  {
    if OsCall.MkdirAll(dir) in faulty then Some(OsFailure(OsCall.MkdirAll(dir))) else None
  }

  /** `os.Rename`: the contents move to `to`, replacing whatever was there. */
  function RenameEffect(files: Files, faulty: set<OsCall>, from: string, to: string): FsOutcome
  {
    if OsCall.Rename(from, to) in faulty then FsOutcome(Some(OsFailure(OsCall.Rename(from, to))), files)
    else if from !in files then FsOutcome(Some(NotExist(from)), files)
    else FsOutcome(None, (files - {from})[to := files[from]])
  }

  /** `os.WriteFile`: creates or truncates the file. */
  function WriteEffect(files: Files, faulty: set<OsCall>, path: string, data: Bytes): FsOutcome
  {
    if OsCall.WriteFile(path) in faulty then FsOutcome(Some(OsFailure(OsCall.WriteFile(path))), files)
    else FsOutcome(None, files[path := data])
  }

  function RemoveEffect(files: Files, faulty: set<OsCall>, path: string): FsOutcome
  {
    if OsCall.Remove(path) in faulty then FsOutcome(Some(OsFailure(OsCall.Remove(path))), files)
    else if path !in files then FsOutcome(Some(NotExist(path)), files)
    else FsOutcome(None, files - {path})
  }

  function ReadOf(files: Files, faulty: set<OsCall>, path: string): Result<Bytes, Error>
  {
    if OsCall.ReadFile(path) in faulty then Failure(OsFailure(OsCall.ReadFile(path)))
    else if path !in files then Failure(NotExist(path))
    else Success(files[path])
  }

  /** The disk, as the store sees it through the `os` package. */
  class FileSystem {
    var files: Files
    const faulty: set<OsCall>

    constructor (files: Files, faulty: set<OsCall>)
      ensures this.files == files && this.faulty == faulty
    {
      this.files := files;
      this.faulty := faulty;
    }

    method MkdirAll(dir: string) returns (err: Option<Error>)
      ensures err == MkdirOf(faulty, dir)
    {
      err := MkdirOf(faulty, dir);
    }

    method Stat(path: string) returns (r: StatResult)
      ensures r == StatOf(files, faulty, path)
    {
      r := StatOf(files, faulty, path);
    }

    method Rename(from: string, to: string) returns (err: Option<Error>)
      modifies this
      ensures FsOutcome(err, files) == RenameEffect(old(files), faulty, from, to)
    {
      var o := RenameEffect(files, faulty, from, to);
      err, files := o.err, o.files;
    }

    method WriteFile(path: string, data: Bytes) returns (err: Option<Error>)
      modifies this
      ensures FsOutcome(err, files) == WriteEffect(old(files), faulty, path, data)
    {
      var o := WriteEffect(files, faulty, path, data);
      err, files := o.err, o.files;
    }

    method Remove(path: string) returns (err: Option<Error>)
      modifies this
      ensures FsOutcome(err, files) == RemoveEffect(old(files), faulty, path)
    {
      var o := RemoveEffect(files, faulty, path);
      err, files := o.err, o.files;
    }

    method ReadFile(path: string) returns (r: Result<Bytes, Error>)
      ensures r == ReadOf(files, faulty, path)
    {
      r := ReadOf(files, faulty, path);
    }
  }

  /** What the keystore file holds: the account's name and its members' records. */
  datatype AccountData = AccountData(name: string, keypairs: map<string, KeyRecord>)

  /** `json.MarshalIndent` and `json.Unmarshal` for account data; decoding may fail. */
  datatype Json = Json(marshal: AccountData -> Bytes, unmarshal: Bytes -> Option<AccountData>)

  /** Decoding an encoding gives back the account data. */
  ghost predicate JsonLawful(j: Json)
  {
    forall a :: j.unmarshal(j.marshal(a)) == Some(a)
  }

  /** The live keystore file of an account (kp.go:202, kp.go:216). */
  function AccountPath(dir: string, name: string): (path: string)
    ensures |path| == |dir| + |name| + 6
    ensures path[..|dir| + 1] == dir + "/" && path[|dir| + 1..|dir| + 1 + |name|] == name
    ensures path[|path| - 5..] == ".json"
  {
    dir + "/" + name + ".json"
  }

  /** The backup directory under the store's directory (kp.go:220). */
  function BackupDir(dir: string): (b: string)
    ensures |b| == |dir| + 7 && b[..|dir|] == dir && b[|dir|..] == "/backup"
  {
    dir + "/backup"
  }

  /** Where an existing keystore file is moved before it is overwritten (kp.go:220-225). */
  function BackupPath(dir: string, name: string, timestamp: string): (path: string)
    ensures |path| == |dir| + |name| + |timestamp| + 14
    ensures path[..|dir| + 8] == dir + "/backup/" && path[|dir| + 8..|dir| + 8 + |name|] == name
    ensures path[|dir| + 8 + |name|..|path| - 5] == "." + timestamp
    ensures path[|path| - 5..] == ".json"
  {
    var prefix := BackupDir(dir) + "/";
    assert prefix == dir + "/backup/";
    var stem := prefix + name + "." + timestamp;
    var path := stem + ".json";
    assert path[..|dir| + 8] == prefix && path[|dir| + 8..|dir| + 8 + |name|] == name;
    assert path[|stem|..] == ".json";
    path
  }

  /** Different account names have different live files. */
  lemma AccountPathInjective(dir: string, a: string, b: string)
    requires AccountPath(dir, a) == AccountPath(dir, b)
    ensures a == b
  {
    var p := AccountPath(dir, a);
    assert p[|dir| + 1..|dir| + 1 + |a|] == a;
    assert AccountPath(dir, b)[|dir| + 1..|dir| + 1 + |b|] == b;
  }

  /**
   * A backup file is never the live file of an account whose name has no
   * '/', and never the live file of the account it backs up.
   */
  lemma BackupIsNotLive(dir: string, name: string, timestamp: string, other: string)
    requires '/' !in other || other == name
    ensures BackupPath(dir, name, timestamp) != AccountPath(dir, other)
  {
    var b, l := BackupPath(dir, name, timestamp), AccountPath(dir, other);
    if other != name && |b| == |l| {
      assert |other| == |name| + |timestamp| + 8;
      assert b[|dir| + 7] == '/';
      assert l[|dir| + 7] == other[6];
    }
  }

  /** Saves at different clock readings back up to different files. */
  lemma BackupPathDistinguishesTimes(dir: string, name: string, t: DateTime, u: DateTime)
    requires t.Valid() && u.Valid()
    ensures BackupPath(dir, name, Format(t)) == BackupPath(dir, name, Format(u)) ==> t == u
  {
    var b := BackupPath(dir, name, Format(t));
    if b == BackupPath(dir, name, Format(u)) {
      var n := |dir| + 8 + |name| + 1;
      assert |Format(t)| == |Format(u)|;
      assert b[n..n + |Format(t)|] == Format(t);
      assert BackupPath(dir, name, Format(u))[n..n + |Format(u)|] == Format(u);
      FormatInjective(t, u);
    }
  }

  /** LoadAccountFrom (kp.go:180-191): read the file, then decode it. */
  function LoadFrom(files: Files, faulty: set<OsCall>, j: Json, path: string): (r: Result<AccountData, Error>)
    ensures ReadOf(files, faulty, path).Failure? ==> r == Failure(ReadOf(files, faulty, path).error)
    ensures r.Success? <==> path in files && OsCall.ReadFile(path) !in faulty && j.unmarshal(files[path]).Some?
    ensures r.Success? ==> j.unmarshal(files[path]) == Some(r.value)
    ensures r.Failure? && path in files && OsCall.ReadFile(path) !in faulty ==> r.error == NotJson
  {
    match ReadOf(files, faulty, path)
    case Failure(e) => Failure(e)
    case Success(data) =>
      match j.unmarshal(data)
      case None => Failure(NotJson)
      case Some(a) => Success(a)
  }

  /** FileAccountStore.LoadAccount (kp.go:201-208): only an existing live file is loaded. */
  function LoadNamed(files: Files, faulty: set<OsCall>, j: Json, dir: string, name: string)
    : (r: Result<AccountData, Error>)
    ensures StatOf(files, faulty, AccountPath(dir, name)) != Exists ==> r == Failure(NotImported(name))
    ensures StatOf(files, faulty, AccountPath(dir, name)) == Exists ==>
      r == LoadFrom(files, faulty, j, AccountPath(dir, name))
  {
    var path := AccountPath(dir, name);
    if StatOf(files, faulty, path) != Exists then Failure(NotImported(name))
    else LoadFrom(files, faulty, j, path)
  }

  /**
   * FileAccountStore.SaveAccount (kp.go:210-233) on the file map: unless
   * `os.Stat` says the live file does not exist, it is renamed to its
   * backup name first; then the live file is written.
   */
  function Saved(files: Files, faulty: set<OsCall>, dir: string, name: string, data: Bytes,
                 timestamp: string): (o: FsOutcome)
    ensures o.err == None ==> AccountPath(dir, name) in o.files && o.files[AccountPath(dir, name)] == data
    ensures o.err.Some? ==> o.files == files || AccountPath(dir, name) !in o.files
  {
    BackupIsNotLive(dir, name, timestamp, name);
    if MkdirOf(faulty, dir).Some? then FsOutcome(MkdirOf(faulty, dir), files)
    else
      var live := AccountPath(dir, name);
      if StatOf(files, faulty, live) == Missing then WriteEffect(files, faulty, live, data)
      else if MkdirOf(faulty, BackupDir(dir)).Some? then FsOutcome(MkdirOf(faulty, BackupDir(dir)), files)
      else
        var moved := RenameEffect(files, faulty, live, BackupPath(dir, name, timestamp));
        if moved.err.Some? then moved
        else WriteEffect(moved.files, faulty, live, data)
  }

  /** Every path other than `live` and `backup` has the same contents in both maps. */
  ghost predicate OthersUnchanged(before: Files, after: Files, live: string, backup: string)
  {
    forall q :: q != live && q != backup ==>
      (q in after <==> q in before) && (q in after ==> after[q] == before[q])
  }

  /**
   * A successful save leaves the new data at the live path; if a live file
   * existed, its old contents are now at the backup path; no other file is
   * touched.
   */
  lemma SaveSucceeds(files: Files, faulty: set<OsCall>, dir: string, name: string, data: Bytes,
                     timestamp: string)
    requires Saved(files, faulty, dir, name, data, timestamp).err == None
    ensures var after := Saved(files, faulty, dir, name, data, timestamp).files;
      var live, backup := AccountPath(dir, name), BackupPath(dir, name, timestamp);
      && live in after && after[live] == data
      && (live in files ==> backup in after && after[backup] == files[live])
      && (live !in files ==> after == files[live := data])
      && OthersUnchanged(files, after, live, backup)
  {
    BackupIsNotLive(dir, name, timestamp, name);
  }

  /**
   * When the live file is to be backed up and the rename fails, the save
   * returns that error before writing: the files are exactly as before.
   */
  lemma SaveStopsWhenRenameFails(files: Files, faulty: set<OsCall>, dir: string, name: string,
                                 data: Bytes, timestamp: string)
    requires MkdirOf(faulty, dir) == None && MkdirOf(faulty, BackupDir(dir)) == None
    requires StatOf(files, faulty, AccountPath(dir, name)) != Missing
    requires RenameEffect(files, faulty, AccountPath(dir, name), BackupPath(dir, name, timestamp)).err.Some?
    ensures Saved(files, faulty, dir, name, data, timestamp)
      == FsOutcome(RenameEffect(files, faulty, AccountPath(dir, name), BackupPath(dir, name, timestamp)).err, files)
  {
  }

  /**
   * A failed save either changes nothing, or has moved the live file to its
   * backup and then failed to write: the account then has no live file and
   * its previous contents survive only in the backup.
   */
  lemma SaveFails(files: Files, faulty: set<OsCall>, dir: string, name: string, data: Bytes,
                  timestamp: string)
    requires Saved(files, faulty, dir, name, data, timestamp).err.Some?
    ensures var after := Saved(files, faulty, dir, name, data, timestamp).files;
      var live, backup := AccountPath(dir, name), BackupPath(dir, name, timestamp);
      || after == files
      || (&& live in files && live !in after
          && backup in after && after[backup] == files[live]
          && OthersUnchanged(files, after, live, backup)
          && Saved(files, faulty, dir, name, data, timestamp).err == Some(OsFailure(OsCall.WriteFile(live))))
  {
    BackupIsNotLive(dir, name, timestamp, name);
  }

  /** After a successful save the account loads back as the data that was saved. */
  lemma SaveThenLoad(files: Files, faulty: set<OsCall>, j: Json, dir: string, a: AccountData,
                     timestamp: string)
    requires JsonLawful(j)
    requires OsCall.Stat(AccountPath(dir, a.name)) !in faulty
    requires OsCall.ReadFile(AccountPath(dir, a.name)) !in faulty
    requires Saved(files, faulty, dir, a.name, j.marshal(a), timestamp).err == None
    ensures LoadNamed(Saved(files, faulty, dir, a.name, j.marshal(a), timestamp).files, faulty, j, dir, a.name)
      == Success(a)
  {
    SaveSucceeds(files, faulty, dir, a.name, j.marshal(a), timestamp);
  }

  /**
   * Two successful saves within the same second use the same backup name:
   * the second save's rename replaces the first backup, so the backup then
   * holds the first save's data and no longer what the live file held
   * before both.
   */
  lemma SameSecondSavesOverwriteBackup(files: Files, faulty: set<OsCall>, dir: string, name: string,
                                       first: Bytes, second: Bytes, timestamp: string)
    requires AccountPath(dir, name) in files
    requires Saved(files, faulty, dir, name, first, timestamp).err == None
    requires Saved(Saved(files, faulty, dir, name, first, timestamp).files, faulty, dir, name, second,
                   timestamp).err == None
    ensures var after := Saved(Saved(files, faulty, dir, name, first, timestamp).files, faulty, dir, name,
                               second, timestamp).files;
      after[BackupPath(dir, name, timestamp)] == first && after[AccountPath(dir, name)] == second
  {
    var mid := Saved(files, faulty, dir, name, first, timestamp).files;
    SaveSucceeds(files, faulty, dir, name, first, timestamp);
    SaveSucceeds(mid, faulty, dir, name, second, timestamp);
  }

  /** The accounts one directory entry contributes to the listing: its account if it loads, else none. */
  function LoadedEntry(files: Files, faulty: set<OsCall>, j: Json, dir: string, entry: string)
    : (accs: seq<AccountData>)
    ensures |accs| <= 1
    ensures |accs| == 1 <==> LoadFrom(files, faulty, j, dir + "/" + entry).Success?
    ensures |accs| == 1 ==> accs[0] == LoadFrom(files, faulty, j, dir + "/" + entry).value
  {
    match LoadFrom(files, faulty, j, dir + "/" + entry)
    case Success(a) => [a]
    case Failure(_) => []
  }

  /** ListAccounts' result over the directory entries, in the order `os.ReadDir` gives them (kp.go:250-259). */
  function Listed(files: Files, faulty: set<OsCall>, j: Json, dir: string, entries: seq<string>)
    : (accs: seq<AccountData>)
    ensures |accs| <= |entries|
    ensures forall a :: a in accs ==>
      exists e :: e in entries && LoadFrom(files, faulty, j, dir + "/" + e) == Success(a)
    decreases |entries|
  {
    if entries == [] then []
    else
      var n := |entries| - 1;
      var prefix := Listed(files, faulty, j, dir, entries[..n]);
      assert forall e :: e in entries[..n] ==> e in entries;
      prefix + LoadedEntry(files, faulty, j, dir, entries[n])
  }

  /** Listing is compositional over the entries: results keep the order of the entries. */
  lemma {:induction false} ListedAppend(files: Files, faulty: set<OsCall>, j: Json, dir: string,
                                        xs: seq<string>, ys: seq<string>)
    ensures Listed(files, faulty, j, dir, xs + ys)
      == Listed(files, faulty, j, dir, xs) + Listed(files, faulty, j, dir, ys)
    decreases |ys|
  {
    if ys == [] {
      assert xs + ys == xs;
    } else {
      var n := |ys| - 1;
      var zs := xs + ys;
      assert zs[..|zs| - 1] == xs + ys[..n];
      assert zs[|zs| - 1] == ys[n];
      ListedAppend(files, faulty, j, dir, xs, ys[..n]);
      ListedLast(files, faulty, j, dir, zs);
      ListedLast(files, faulty, j, dir, ys);
    }
  }

  /** The listing of a non-empty entry list ends with what its last entry contributes. */
  lemma ListedLast(files: Files, faulty: set<OsCall>, j: Json, dir: string, entries: seq<string>)
    requires entries != []
    ensures Listed(files, faulty, j, dir, entries)
      == Listed(files, faulty, j, dir, entries[..|entries| - 1])
         + LoadedEntry(files, faulty, j, dir, entries[|entries| - 1])
  {
  }

  /** Every entry that loads appears in the listing; the ones that fail are skipped. */
  lemma {:induction false} ListedComplete(files: Files, faulty: set<OsCall>, j: Json, dir: string,
                                          entries: seq<string>, i: int)
    requires 0 <= i < |entries|
    requires LoadFrom(files, faulty, j, dir + "/" + entries[i]).Success?
    ensures LoadFrom(files, faulty, j, dir + "/" + entries[i]).value in Listed(files, faulty, j, dir, entries)
  {
    assert entries == entries[..i] + [entries[i]] + entries[i + 1..];
    ListedAppend(files, faulty, j, dir, entries[..i] + [entries[i]], entries[i + 1..]);
    ListedAppend(files, faulty, j, dir, entries[..i], [entries[i]]);
    assert Listed(files, faulty, j, dir, [entries[i]]) == LoadedEntry(files, faulty, j, dir, entries[i]) by {
      assert [entries[i]][..0] == [];
    }
  }

  /** SaveTo (kp.go:170-178): write the account's JSON to the file. */
  method SaveTo(fs: FileSystem, a: AccountInfo, j: Json, fileName: string) returns (err: Option<Error>)
    modifies fs
    ensures FsOutcome(err, fs.files)
      == WriteEffect(old(fs.files), fs.faulty, fileName, j.marshal(AccountData(a.name, a.Records())))
  {
    err := fs.WriteFile(fileName, j.marshal(AccountData(a.name, a.Records())));
  }

  /** LoadAccountFrom (kp.go:180-191). */
  method LoadAccountFrom(fs: FileSystem, j: Json, fileName: string) returns (r: Result<AccountData, Error>)
    ensures r == LoadFrom(fs.files, fs.faulty, j, fileName)
  {
    var data := fs.ReadFile(fileName);
    if data.Failure? {
      return Failure(data.error);
    }
    var a := j.unmarshal(data.value);
    if a.None? {
      return Failure(NotJson);
    }
    return Success(a.value);
  }

  /** A store rooted at one directory (kp.go:193-199). */
  class FileAccountStore {
    const accountDir: string

    /** NewFileAccountStore (kp.go:197-199). */
    constructor (accountDir: string)
      ensures this.accountDir == accountDir
    {
      this.accountDir := accountDir;
    }

    /** LoadAccount (kp.go:201-208). */
    method LoadAccount(fs: FileSystem, j: Json, name: string) returns (r: Result<AccountData, Error>)
      ensures r == LoadNamed(fs.files, fs.faulty, j, accountDir, name)
    {
      var fileName := accountDir + "/" + name + ".json";
      var st := fs.Stat(fileName);
      if st != Exists {
        return Failure(NotImported(name));
      }
      r := LoadAccountFrom(fs, j, fileName);
    }

    /** SaveAccount (kp.go:210-233); `now` is the clock reading `time.Now()` returns. */
    method SaveAccount(fs: FileSystem, a: AccountInfo, j: Json, now: DateTime) returns (err: Option<Error>)
      requires now.Valid()
      modifies fs
      ensures FsOutcome(err, fs.files)
        == Saved(old(fs.files), fs.faulty, accountDir, a.name, j.marshal(AccountData(a.name, a.Records())),
                 Format(now))
    {
      var dir := accountDir;
      err := fs.MkdirAll(accountDir);
      if err.Some? {
        return;
      }
      var fileName := dir + "/" + a.name + ".json";
      var st := fs.Stat(fileName);
      if st != Missing {
        var timeStr := Format(now);
        var backupDir := dir + "/backup";
        err := fs.MkdirAll(backupDir);
        if err.Some? {
          return;
        }
        var backupFileName := backupDir + "/" + a.name + "." + timeStr + ".json";
        err := fs.Rename(fileName, backupFileName);
        if err.Some? {
          return;
        }
      }
      err := SaveTo(fs, a, j, fileName);
    }

    /** DeleteAccount (kp.go:235-243): remove the live file. */
    method DeleteAccount(fs: FileSystem, name: string) returns (err: Option<Error>)
      modifies fs
      ensures FsOutcome(err, fs.files) == RemoveEffect(old(fs.files), fs.faulty, AccountPath(accountDir, name))
    {
      var f := accountDir + "/" + name + ".json";
      err := fs.Remove(f);
    }

    /**
     * ListAccounts (kp.go:245-261). `listing` is what `os.ReadDir` returned
     * for the store's directory: its entry names (sorted by name in Go; any order here), or its error.
     */
    method ListAccounts(fs: FileSystem, j: Json, listing: Result<seq<string>, Error>)
      returns (r: Result<seq<AccountData>, Error>)
      ensures listing.Failure? ==> r == Failure(listing.error)
      ensures listing.Success? ==> r == Success(Listed(fs.files, fs.faulty, j, accountDir, listing.value))
    {
      if listing.Failure? {
        return Failure(listing.error);
      }
      var entries := listing.value;
      var accs: seq<AccountData> := [];
      for i := 0 to |entries|
        invariant accs == Listed(fs.files, fs.faulty, j, accountDir, entries[..i])
      {
        assert entries[..i + 1][..i] == entries[..i];
        var acc := LoadAccountFrom(fs, j, accountDir + "/" + entries[i]);
        if acc.Failure? {
          continue;
        }
        accs := accs + [acc.value];
      }
      assert entries[..|entries|] == entries;
      return Success(accs);
    }
  }

  /** After a successful delete the account is no longer imported. */
  lemma DeleteThenLoad(files: Files, faulty: set<OsCall>, j: Json, dir: string, name: string)
    requires RemoveEffect(files, faulty, AccountPath(dir, name)).err == None
    ensures LoadNamed(RemoveEffect(files, faulty, AccountPath(dir, name)).files, faulty, j, dir, name)
      == Failure(NotImported(name))
  {
  }
}
