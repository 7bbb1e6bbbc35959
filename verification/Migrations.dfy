/** Schema migrations: discovering the files, and any number of processes applying them concurrently. */
module Migrations {
  import opened Basics

  // ---------- discovery ----------

  datatype Entry = Entry(name: string, isDirectory: bool)

  datatype MigrationFile = MigrationFile(version: int, name: string)

  /** filepath.Ext of a base name: from the last dot on. */
  function Extension(name: string): string {
    if name == "" then ""
    else if name[|name| - 1] == '.' then "."
    else
      var rest := Extension(name[..|name| - 1]);
      if rest == "" then "" else rest + [name[|name| - 1]]
  }

  /** The text before the first underscore, if there is one. */
  function Prefix(name: string): Option<string> {
    if name == "" then None
    else if name[0] == '_' then Some("")
    else match Prefix(name[1..])
      case None => None
      case Some(rest) => Some([name[0]] + rest)
  }

  function Digits(s: string): Option<nat> {
    if s == "" then Some(0)
    else
      var digit := s[|s| - 1] as int - 48;
      match Digits(s[..|s| - 1])
      case None => None
      case Some(n) => if 0 <= digit < 10 then Some(10 * n + digit) else None
  }

  /** strconv.Atoi on 64 bits: an optional sign, at least one digit, and a value in range. */
  function Atoi(s: string): Option<int> {
    var negative := s != "" && s[0] == '-';
    var body := if negative || (s != "" && s[0] == '+') then s[1..] else s;
    match Digits(body)
    case None => None
    case Some(n) =>
      var magnitude: int := n;
      var value := if negative then -magnitude else magnitude;
      if body != "" && -0x8000_0000_0000_0000 <= value < 0x8000_0000_0000_0000 then Some(value) else None
  }

  /** What a directory entry's name says: not a migration, badly named, or the file of a version. */
  datatype Kind = Ignored | Malformed | File(version: int)

  function KindOf(entry: Entry): Kind {
    if entry.isDirectory || Extension(entry.name) != ".sql" then Ignored
    else match Prefix(entry.name)
      case None => Malformed
      case Some(prefix) => match Atoi(prefix)
        case None => Malformed
        case Some(version) => if version < 1 then Malformed else File(version)
  }

  // ---------- what a name has to look like ----------

  lemma {:induction false} NoExtension(name: string)
    requires forall i :: 0 <= i < |name| ==> name[i] != '.'
    ensures Extension(name) == ""
    decreases |name|
  {
    if name != "" {
      NoExtension(name[..|name| - 1]);
    }
  }

  lemma {:induction false} ExtensionFrom(name: string, dot: nat)
    requires dot < |name| && name[dot] == '.' && forall i :: dot < i < |name| ==> name[i] != '.'
    ensures Extension(name) == name[dot..]
    decreases |name|
  {
    if dot < |name| - 1 {
      var shorter := name[..|name| - 1];
      ExtensionFrom(shorter, dot);
      assert name[dot..] == shorter[dot..] + [name[|name| - 1]];
    }
  }

  ghost predicate EndsInSql(name: string) {
    |name| >= 4 && name[|name| - 4..] == ".sql"
  }

  lemma {:induction false} LastDot(name: string) returns (dot: nat)
    ensures dot <= |name| && (dot < |name| ==> name[dot] == '.')
    ensures if dot < |name| then forall i :: dot < i < |name| ==> name[i] != '.'
            else forall i :: 0 <= i < |name| ==> name[i] != '.'
    decreases |name|
  {
    if name == "" || name[|name| - 1] == '.' {
      return if name == "" then 0 else |name| - 1;
    }
    var shorter := name[..|name| - 1];
    dot := LastDot(shorter);
    if dot == |shorter| {
      assert forall i :: 0 <= i < |shorter| ==> name[i] == shorter[i];
      dot := |name|;
    } else {
      assert forall i :: 0 <= i < |shorter| ==> name[i] == shorter[i];
    }
  }

  lemma SqlEnding(name: string)
    requires EndsInSql(name)
    ensures name[|name| - 4] == '.' && forall i :: |name| - 4 < i < |name| ==> name[i] != '.'
  {
    assert forall i :: |name| - 4 <= i < |name| ==> name[i] == name[|name| - 4..][i - (|name| - 4)];
  }

  lemma SqlExactly(name: string)
    ensures Extension(name) == ".sql" <==> EndsInSql(name)
  {
    var dot := LastDot(name);
    if EndsInSql(name) {
      SqlEnding(name);
      ExtensionFrom(name, |name| - 4);
    } else if dot == |name| {
      NoExtension(name);
    } else {
      ExtensionFrom(name, dot);
    }
  }

  lemma {:induction false} PrefixUntil(name: string, i: nat)
    requires i < |name| && name[i] == '_' && forall k :: 0 <= k < i ==> name[k] != '_'
    ensures Prefix(name) == Some(name[..i])
  {
    if i > 0 {
      PrefixUntil(name[1..], i - 1);
      assert name[..i] == [name[0]] + name[1..][..i - 1];
    }
  }

  /** The decimal numeral of a number. */
  ghost function Numeral(n: nat): string {
    var digit := [(48 + n % 10) as char];
    if n < 10 then digit else Numeral(n / 10) + digit
  }

  /** The same after some zeros. */
  ghost function Padded(zeros: nat, n: nat): string {
    if zeros == 0 then Numeral(n) else "0" + Padded(zeros - 1, n)
  }

  lemma {:induction false} NumeralRead(n: nat)
    ensures Numeral(n) != "" && Digits(Numeral(n)) == Some(n)
    ensures forall i :: 0 <= i < |Numeral(n)| ==> '0' <= Numeral(n)[i] <= '9'
  {
    var digit := [(48 + n % 10) as char];
    if n >= 10 {
      NumeralRead(n / 10);
      assert Numeral(n)[..|Numeral(n)| - 1] == Numeral(n / 10);
    } else {
      assert Numeral(n)[..|Numeral(n)| - 1] == "";
    }
  }

  lemma {:induction false} ZeroFirst(s: string)
    ensures Digits("0" + s) == Digits(s)
  {
    if s == "" {
      assert ("0" + s)[..0] == "";
    } else {
      ZeroFirst(s[..|s| - 1]);
      assert ("0" + s)[..|s|] == "0" + s[..|s| - 1];
    }
  }

  lemma {:induction false} PaddedRead(zeros: nat, n: nat)
    ensures Padded(zeros, n) != "" && Digits(Padded(zeros, n)) == Some(n)
    ensures forall i :: 0 <= i < |Padded(zeros, n)| ==> '0' <= Padded(zeros, n)[i] <= '9'
  {
    if zeros == 0 {
      NumeralRead(n);
    } else {
      PaddedRead(zeros - 1, n);
      ZeroFirst(Padded(zeros - 1, n));
    }
  }

  lemma {:induction false} PaddedMore(zeros: nat, n: nat, digit: nat)
    requires digit < 10
    ensures Padded(zeros, n) + Numeral(digit)
              == if n == 0 then Padded(zeros + 1, digit) else Padded(zeros, 10 * n + digit)
  {
    if zeros > 0 {
      PaddedMore(zeros - 1, n, digit);
      assert Padded(zeros, n) + Numeral(digit) == "0" + (Padded(zeros - 1, n) + Numeral(digit));
    }
  }

  /** Only numerals are read as numbers. */
  lemma {:induction false} DigitsRead(s: string) returns (zeros: nat)
    requires s != "" && Digits(s).Some?
    ensures s == Padded(zeros, Digits(s).value)
    decreases |s|
  {
    var shorter := s[..|s| - 1];
    var digit := s[|s| - 1] as int - 48;
    assert s == shorter + Numeral(digit);
    if shorter == "" {
      return 0;
    }
    zeros := DigitsRead(shorter);
    var n := Digits(shorter).value;
    PaddedMore(zeros, n, digit);
    return if n == 0 then zeros + 1 else zeros;
  }

  ghost predicate Named(name: string, plus: bool, zeros: nat, version: nat, rest: string) {
    name == (if plus then "+" else "") + Padded(zeros, version) + "_" + rest
  }

  lemma FileNamed(name: string, version: nat)
    requires Prefix(name).Some? && Atoi(Prefix(name).value) == Some(version)
    ensures version < 0x8000_0000_0000_0000
    ensures version > 0 ==> exists plus, zeros: nat, rest :: Named(name, plus, zeros, version, rest)
  {
    PrefixSplits(name);
    var prefix := Prefix(name).value;
    if version > 0 {
      var plus := prefix[0] == '+';
      var zeros := DigitsRead(if plus then prefix[1..] else prefix);
      assert prefix == (if plus then "+" else "") + Padded(zeros, version);
      assert Named(name, plus, zeros, version, name[|prefix| + 1..]);
    }
  }

  lemma NumeralParses(body: string, version: nat, plus: bool)
    requires body != "" && '0' <= body[0] <= '9' && Digits(body) == Some(version)
    requires version < 0x8000_0000_0000_0000
    ensures Atoi(if plus then "+" + body else body) == Some(version)
  {
    assert ("+" + body)[1..] == body;
  }

  lemma PrefixBefore(prefix: string, rest: string)
    requires forall k :: 0 <= k < |prefix| ==> prefix[k] != '_'
    ensures Prefix(prefix + "_" + rest) == Some(prefix)
  {
    PrefixUntil(prefix + "_" + rest, |prefix|);
    assert (prefix + "_" + rest)[..|prefix|] == prefix;
  }

  lemma NamedFile(name: string, plus: bool, zeros: nat, version: nat, rest: string)
    requires Named(name, plus, zeros, version, rest) && version < 0x8000_0000_0000_0000
    ensures Prefix(name).Some? && Atoi(Prefix(name).value) == Some(version)
  {
    var body := Padded(zeros, version);
    PaddedRead(zeros, version);
    NumeralParses(body, version, plus);
    PrefixBefore((if plus then "+" else "") + body, rest);
    assert "" + body == body;
  }

  /** The file of a version is one whose name is a numeral, an underscore and anything that ends in .sql. */
  lemma FileExactly(entry: Entry, version: nat)
    ensures KindOf(entry) == File(version) <==>
              && !entry.isDirectory && EndsInSql(entry.name) && 1 <= version < 0x8000_0000_0000_0000
              && exists plus, zeros: nat, rest :: Named(entry.name, plus, zeros, version, rest)
    ensures KindOf(entry) == Ignored <==> entry.isDirectory || !EndsInSql(entry.name)
  {
    SqlExactly(entry.name);
    if KindOf(entry) == File(version) {
      FileNamed(entry.name, version);
    }
    if plus, zeros: nat, rest :|
      Named(entry.name, plus, zeros, version, rest) && version < 0x8000_0000_0000_0000
    {
      NamedFile(entry.name, plus, zeros, version, rest);
    }
  }

  lemma {:induction false} PrefixSplits(name: string)
    requires Prefix(name).Some?
    ensures var prefix := Prefix(name).value;
            |prefix| < |name| && name == prefix + "_" + name[|prefix| + 1..]
  {
    if name[0] != '_' {
      PrefixSplits(name[1..]);
      assert name == [name[0]] + name[1..];
    }
  }

  function Kinds(entries: seq<Entry>): seq<Kind> {
    seq(|entries|, i requires 0 <= i < |entries| => KindOf(entries[i]))
  }

  /** The directory holds a usable set: some files, none badly named, no version twice. */
  ghost predicate Usable(kinds: seq<Kind>) {
    && (exists i :: 0 <= i < |kinds| && kinds[i].File?)
    && (forall i :: 0 <= i < |kinds| ==> !kinds[i].Malformed?)
    && (forall i, j :: 0 <= i < j < |kinds| && kinds[i].File? ==> kinds[i] != kinds[j])
  }

  ghost predicate Ascending(versions: seq<int>) {
    forall i, j :: 0 <= i < j < |versions| ==> versions[i] < versions[j]
  }

  function Versions(files: seq<MigrationFile>): seq<int> {
    seq(|files|, i requires 0 <= i < |files| => files[i].version)
  }

  /** Inserts a file into an ascending list: the step of the sort. */
  method InsertByVersion(files: seq<MigrationFile>, file: MigrationFile) returns (longer: seq<MigrationFile>)
    requires Ascending(Versions(files)) && forall i :: 0 <= i < |files| ==> files[i].version != file.version
    ensures Ascending(Versions(longer))
    ensures forall f :: f in longer <==> f == file || f in files
  {
    var i := 0;
    while i < |files| && files[i].version < file.version
      invariant 0 <= i <= |files|
      invariant forall j :: 0 <= j < i ==> files[j].version < file.version
    {
      i := i + 1;
    }
    longer := files[..i] + [file] + files[i..];
    assert files == files[..i] + files[i..];
    forall j | i <= j < |files| ensures file.version < files[j].version {
      if i < j { assert Versions(files)[i] < Versions(files)[j]; }
    }
    InsertedAscending(files, file, i);
  }

  lemma InsertedAscending(files: seq<MigrationFile>, file: MigrationFile, i: nat)
    requires Ascending(Versions(files)) && i <= |files|
    requires forall j :: 0 <= j < i ==> files[j].version < file.version
    requires forall j :: i <= j < |files| ==> file.version < files[j].version
    ensures Ascending(Versions(files[..i] + [file] + files[i..]))
  {
    var longer := files[..i] + [file] + files[i..];
    forall j, k | 0 <= j < k < |longer| ensures Versions(longer)[j] < Versions(longer)[k] {
      var x := if j < i then j else j - 1;
      var y := if k < i then k else k - 1;
      if j != i && k != i { assert Versions(files)[x] < Versions(files)[y]; }
    }
  }

  /** Entry i is the migration file. */
  ghost predicate IsFile(names: seq<string>, kinds: seq<Kind>, i: nat, file: MigrationFile)
    requires i < |names| == |kinds|
  {
    kinds[i] == File(file.version) && names[i] == file.name
  }

  /** What the scan of the first n entries has established. */
  ghost predicate Scanned(names: seq<string>, kinds: seq<Kind>, n: nat, seen: set<int>, files: seq<MigrationFile>)
    requires n <= |names| == |kinds|
  {
    && (forall j :: 0 <= j < n ==> !kinds[j].Malformed? && (kinds[j].File? ==> kinds[j].version in seen))
    && (forall j, k :: 0 <= j < k < n && kinds[j].File? ==> kinds[j] != kinds[k])
    && (forall f :: f in files <==> exists j :: 0 <= j < n && IsFile(names, kinds, j, f))
    && (forall v :: v in seen ==> exists j :: 0 <= j < n && kinds[j] == File(v))
    && (forall f :: f in files ==> f.version in seen)
  }

  lemma ScanAdds(
    names: seq<string>, kinds: seq<Kind>, n: nat, seen: set<int>, files: seq<MigrationFile>, longer: seq<MigrationFile>)
    requires n < |names| == |kinds| && Scanned(names, kinds, n, seen, files) && kinds[n].File?
    requires kinds[n].version !in seen
    requires forall f :: f in longer <==> f == MigrationFile(kinds[n].version, names[n]) || f in files
    ensures Scanned(names, kinds, n + 1, seen + {kinds[n].version}, longer)
  {
    var file := MigrationFile(kinds[n].version, names[n]);
    assert IsFile(names, kinds, n, file) && file in longer;
  }

  /** The scan with its seen map, once the names are parsed. */
  method Scan(names: seq<string>, kinds: seq<Kind>) returns (items: Option<seq<MigrationFile>>)
    requires |names| == |kinds|
    ensures items.Some? <==> Usable(kinds)
    ensures items.Some? ==> Ascending(Versions(items.value))
    ensures items.Some? ==> forall f :: f in items.value <==> exists i :: 0 <= i < |names| && IsFile(names, kinds, i, f)
  {
    var files: seq<MigrationFile> := [];
    var seen: set<int> := {};
    for i := 0 to |names|
      invariant Ascending(Versions(files)) && Scanned(names, kinds, i, seen, files)
    {
      var kind := kinds[i];
      if kind.Ignored? {
        continue;
      }
      if kind.Malformed? || kind.version in seen {
        return None;
      }
      forall j | 0 <= j < |files| ensures files[j].version != kind.version { assert files[j] in files; }
      var longer := InsertByVersion(files, MigrationFile(kind.version, names[i]));
      ScanAdds(names, kinds, i, seen, files, longer);
      files, seen := longer, seen + {kind.version};
    }
    assert files != [] ==> files[0] in files;
    assert forall j :: 0 <= j < |names| && kinds[j].File? ==>
      IsFile(names, kinds, j, MigrationFile(kinds[j].version, names[j]));
    if files == [] {
      return None;
    }
    return Some(files);
  }

  /** All migration files in strictly ascending order, or an error exactly when the directory is not usable. */
  method DiscoverMigrations(entries: seq<Entry>) returns (items: Option<seq<MigrationFile>>)
    ensures items.Some? <==> Usable(Kinds(entries))
    ensures items.Some? ==> Ascending(Versions(items.value))
    ensures items.Some? ==> forall f :: f in items.value <==>
              exists i :: 0 <= i < |entries| && Kinds(entries)[i] == File(f.version) && entries[i].name == f.name
  {
    var kinds := Kinds(entries);
    var names := seq(|entries|, i requires 0 <= i < |entries| => entries[i].name);
    items := Scan(names, kinds);
    if items.Some? {
      SameFiles(entries, names, items.value);
    }
  }

  lemma SameFiles(entries: seq<Entry>, names: seq<string>, files: seq<MigrationFile>)
    requires |names| == |entries| && forall i :: 0 <= i < |entries| ==> names[i] == entries[i].name
    requires forall f :: f in files <==> exists i :: 0 <= i < |names| && IsFile(names, Kinds(entries), i, f)
    ensures forall f :: f in files <==>
              exists i :: 0 <= i < |entries| && Kinds(entries)[i] == File(f.version) && entries[i].name == f.name
  {
    var kinds := Kinds(entries);
    forall f
      ensures f in files <==> exists i :: 0 <= i < |entries| && kinds[i] == File(f.version) && entries[i].name == f.name
    {
      if i :| 0 <= i < |entries| && kinds[i] == File(f.version) && entries[i].name == f.name {
        assert IsFile(names, kinds, i, f);
      }
    }
  }

  // ---------- one process alone ----------

  /** What applying a version makes of the applied list: nothing if it is there already. */
  function Applied(applied: seq<int>, version: int): seq<int> {
    if version in applied then applied else applied + [version]
  }

  function AppliedAll(applied: seq<int>, versions: seq<int>): seq<int> {
    if versions == [] then applied
    else Applied(AppliedAll(applied, versions[..|versions| - 1]), versions[|versions| - 1])
  }

  /** How one file's transaction ends: done, an error of any step and a rollback, or a COMMIT whose answer is lost. */
  datatype Ending = Completes | Fails | LosesCommit

  class SchemaMigrations {
    var applied: seq<int>

    constructor (applied: seq<int>)
      ensures this.applied == applied
    {
      this.applied := applied;
    }

    method ApplyMigration(file: MigrationFile, ending: Ending) returns (ok: bool)
      modifies this
      ensures ok == ending.Completes?
      ensures applied == if ending.Fails? then old(applied) else Applied(old(applied), file.version)
    {
      var saved := applied;
      if file.version !in applied {
        applied := applied + [file.version];
      }
      if ending.Fails? {
        applied := saved;
      }
      return ending.Completes?;
    }

    /** Applies the files in order and stops at the first error, keeping what was committed. */
    method Migrate(files: seq<MigrationFile>, endings: nat -> Ending) returns (ok: bool, done: nat)
      modifies this
      ensures done <= |files| && forall i :: 0 <= i < done ==> endings(i).Completes?
      ensures if ok then done == |files| else done < |files| && !endings(done).Completes?
      ensures applied == AppliedAll(old(applied),
                Versions(files)[..if !ok && endings(done).LosesCommit? then done + 1 else done])
    {
      done := 0;
      while done < |files|
        invariant done <= |files| && forall i :: 0 <= i < done ==> endings(i).Completes?
        invariant applied == AppliedAll(old(applied), Versions(files)[..done])
      {
        assert Versions(files)[..done + 1][..done] == Versions(files)[..done];
        ok := ApplyMigration(files[done], endings(done));
        if !ok {
          return;
        }
        done := done + 1;
      }
      ok := true;
    }
  }

  /** In a prefix of distinct versions, a version is present exactly when its position is. */
  lemma PrefixMember(files: seq<int>, applied: seq<int>, k: nat)
    requires Ascending(files) && applied <= files && k < |files|
    ensures files[k] in applied <==> k < |applied|
  {
    if k < |applied| { assert applied[k] == files[k]; }
  }

  /** From a prefix of ascending versions, the first k files leave the longer of the two prefixes. */
  lemma {:induction false} AppliedAllExact(applied: seq<int>, versions: seq<int>, k: nat)
    requires Ascending(versions) && applied <= versions && k <= |versions|
    ensures AppliedAll(applied, versions[..k]) == if k <= |applied| then applied else versions[..k]
  {
    if k > 0 {
      AppliedAllExact(applied, versions, k - 1);
      var sooner := AppliedAll(applied, versions[..k - 1]);
      assert versions[..k][..k - 1] == versions[..k - 1];
      assert sooner <= versions;
      PrefixMember(versions, sooner, k - 1);
      assert versions[..k] == versions[..k - 1] + [versions[k - 1]];
    }
  }

  // ---------- concurrent application ----------

  /** Where a process is within applyMigration of its next file, or how its Migrate call ended. */
  datatype Phase = Waiting | Locked | Checked(found: bool) | SqlRun | Recorded | Succeeded | Aborted

  /** `next` indexes the file the process is working on; its uncommitted record is visible to itself only. */
  datatype Process = Process(next: nat, phase: Phase)

  /** The committed rows of schema_migrations in commit order, the holder of the advisory lock, the processes. */
  datatype World = World(applied: seq<int>, holder: Option<nat>, processes: map<nat, Process>)

  /** `LostCommit` is a COMMIT that takes effect while the process sees an error. */
  datatype Action =
    | Begin(p: nat)
    | Lock(p: nat)
    | Check(p: nat)
    | RunSql(p: nat)
    | Record(p: nat)
    | Commit(p: nat)
    | LostCommit(p: nat)
    | Abort(p: nat)

  ghost predicate At(w: World, p: nat, phase: Phase) {
    p in w.processes && w.processes[p].phase == phase
  }

  function Moved(w: World, p: nat, phase: Phase): World
    requires p in w.processes
  {
    w.(processes := w.processes[p := w.processes[p].(phase := phase)])
  }

  /** Holds the lock within its transaction. */
  predicate InTransaction(phase: Phase) {
    phase.Locked? || phase.Checked? || phase.SqlRun? || phase.Recorded?
  }

  /** The file after the committed one, or success when it was the last. */
  function Advance(files: seq<int>, process: Process): Process {
    Process(process.next + 1, if process.next + 1 < |files| then Waiting else Succeeded)
  }

  ghost predicate Committable(files: seq<int>, w: World, p: nat) {
    (At(w, p, Checked(true)) || At(w, p, Recorded)) && w.processes[p].next < |files|
  }

  ghost function Committed(files: seq<int>, w: World, p: nat): seq<int>
    requires Committable(files, w, p)
  {
    if At(w, p, Recorded) then w.applied + [files[w.processes[p].next]] else w.applied
  }

  /**
   One step of one process, over the discovered versions. The lock is taken only when free and given back by
   commit or rollback; a record is an insert under a primary key; only a commit shows it to the others.
   */
  ghost predicate Next(files: seq<int>, w: World, action: Action, w': World) {
    match action
    case Begin(p) =>
      && p !in w.processes
      && w' == w.(processes := w.processes[p := Process(0, if files == [] then Succeeded else Waiting)])
    case Lock(p) =>
      At(w, p, Waiting) && w.holder.None? && w' == Moved(w, p, Locked).(holder := Some(p))
    case Check(p) =>
      At(w, p, Locked) && w.processes[p].next < |files|
      && w' == Moved(w, p, Checked(files[w.processes[p].next] in w.applied))
    case RunSql(p) =>
      At(w, p, Checked(false)) && w' == Moved(w, p, SqlRun)
    case Record(p) =>
      && At(w, p, SqlRun) && w.processes[p].next < |files| && files[w.processes[p].next] !in w.applied
      && w' == Moved(w, p, Recorded)
    case Commit(p) =>
      && Committable(files, w, p)
      && w' == World(Committed(files, w, p), None, w.processes[p := Advance(files, w.processes[p])])
    case LostCommit(p) =>
      Committable(files, w, p) && w' == Moved(w, p, Aborted).(applied := Committed(files, w, p), holder := None)
    case Abort(p) =>
      && p in w.processes && !w.processes[p].phase.Succeeded? && !w.processes[p].phase.Aborted?
      && w' == Moved(w, p, Aborted).(holder := if w.holder == Some(p) then None else w.holder)
  }

  ghost predicate IsRun(files: seq<int>, worlds: seq<World>, actions: seq<Action>) {
    && |worlds| == |actions| + 1
    && forall i :: 0 <= i < |actions| ==> Next(files, worlds[i], actions[i], worlds[i + 1])
  }

  /** What each process knows: the files before its own are applied, and inside the lock its check is still true. */
  ghost predicate Knows(files: seq<int>, w: World, p: nat)
    requires p in w.processes
  {
    var process := w.processes[p];
    && process.next <= |files|
    && (forall i :: 0 <= i < process.next ==> files[i] in w.applied)
    && (process.phase.Waiting? || InTransaction(process.phase) ==> process.next < |files|)
    && (InTransaction(process.phase) ==> w.holder == Some(p))
    && (process.phase.Checked? ==> (process.phase.found <==> files[process.next] in w.applied))
    && (process.phase.SqlRun? || process.phase.Recorded? ==> files[process.next] !in w.applied)
    && (process.phase.Succeeded? ==> process.next == |files|)
  }

  /** The list is what one process alone would have made of the first n files. */
  ghost predicate InTurn(files: seq<int>, start: seq<int>, applied: seq<int>, n: nat) {
    n <= |files| && applied == AppliedAll(start, files[..n])
  }

  ghost predicate Inv(files: seq<int>, start: seq<int>, w: World) {
    && (exists n: nat :: InTurn(files, start, w.applied, n))
    && HolderInside(w)
    && forall p :: p in w.processes ==> Knows(files, w, p)
  }

  /** Applying files that are all there already changes nothing. */
  lemma {:induction false} NothingNew(files: seq<int>, start: seq<int>, n: nat, k: nat)
    requires n <= k <= |files|
    requires forall i :: 0 <= i < k ==> files[i] in AppliedAll(start, files[..n])
    ensures AppliedAll(start, files[..k]) == AppliedAll(start, files[..n])
    decreases k
  {
    if n < k {
      NothingNew(files, start, n, k - 1);
      assert files[..k][..k - 1] == files[..k - 1];
    }
  }

  lemma {:induction false} AllApplied(start: seq<int>, versions: seq<int>, i: nat)
    requires i < |versions|
    ensures versions[i] in AppliedAll(start, versions)
    decreases |versions|
  {
    if i < |versions| - 1 {
      AllApplied(start, versions[..|versions| - 1], i);
    }
  }

  /** The next missing file in the lock is the next in turn. */
  lemma RecordInTurn(files: seq<int>, start: seq<int>, applied: seq<int>, n: nat, next: nat)
    requires InTurn(files, start, applied, n) && next < |files|
    requires files[next] !in applied && forall i :: 0 <= i < next ==> files[i] in applied
    ensures InTurn(files, start, applied + [files[next]], next + 1)
  {
    if next < n {
      AllApplied(start, files[..n], next);
    }
    NothingNew(files, start, n, next);
    assert files[..next + 1][..next] == files[..next];
  }

  lemma CommitInTurn(files: seq<int>, start: seq<int>, w: World, p: nat)
    requires Inv(files, start, w) && Committable(files, w, p)
    ensures exists n: nat :: InTurn(files, start, Committed(files, w, p), n)
    ensures Committed(files, w, p) == Applied(w.applied, files[w.processes[p].next])
  {
    assert Knows(files, w, p);
    var n: nat :| InTurn(files, start, w.applied, n);
    if At(w, p, Recorded) {
      RecordInTurn(files, start, w.applied, n, w.processes[p].next);
      assert InTurn(files, start, Committed(files, w, p), w.processes[p].next + 1);
    } else {
      assert InTurn(files, start, Committed(files, w, p), n);
    }
  }

  lemma CommitKeeps(files: seq<int>, start: seq<int>, w: World, action: Action, w': World)
    requires (action.Commit? || action.LostCommit?) && Inv(files, start, w) && Next(files, w, action, w')
    ensures Inv(files, start, w')
  {
    CommitInTurn(files, start, w, action.p);
    assert Knows(files, w, action.p);
    forall q | q in w'.processes ensures Knows(files, w', q) {
      assert Knows(files, w, q);
    }
  }

  ghost predicate HolderInside(w: World) {
    w.holder.Some? ==> w.holder.value in w.processes && InTransaction(w.processes[w.holder.value].phase)
  }

  lemma OtherStep(files: seq<int>, w: World, action: Action, w': World)
    requires Next(files, w, action, w') && !action.Commit? && !action.LostCommit?
    requires HolderInside(w) && forall p :: p in w.processes ==> Knows(files, w, p)
    ensures HolderInside(w') && w'.applied == w.applied
    ensures forall p :: p in w'.processes ==> Knows(files, w', p)
  {
    forall q | q in w'.processes ensures Knows(files, w', q) {
      assert q in w.processes ==> Knows(files, w, q);
    }
  }

  /** Every step of every process keeps this, aborts and lost commits included. */
  lemma StepKeeps(files: seq<int>, start: seq<int>, w: World, action: Action, w': World)
    requires Inv(files, start, w) && Next(files, w, action, w')
    ensures Inv(files, start, w')
  {
    if action.Commit? || action.LostCommit? {
      CommitKeeps(files, start, w, action, w');
    } else {
      OtherStep(files, w, action, w');
      var n: nat :| InTurn(files, start, w.applied, n);
      assert InTurn(files, start, w'.applied, n);
    }
  }

  /** No process has begun and the lock is free; the table may hold anything. */
  ghost predicate Initial(w: World) {
    w.holder.None? && w.processes == map[]
  }

  lemma {:induction false} RunKeeps(files: seq<int>, worlds: seq<World>, actions: seq<Action>, k: nat)
    requires IsRun(files, worlds, actions) && Initial(worlds[0]) && k <= |actions|
    ensures Inv(files, worlds[0].applied, worlds[k])
  {
    if k > 0 {
      RunKeeps(files, worlds, actions, k - 1);
      StepKeeps(files, worlds[0].applied, worlds[k - 1], actions[k - 1], worlds[k]);
    } else {
      assert InTurn(files, worlds[0].applied, worlds[0].applied, 0);
    }
  }

  /** Every commit of every run acts on the list as one process alone would. */
  lemma CommitsInTurn(files: seq<int>, worlds: seq<World>, actions: seq<Action>, k: nat)
    requires IsRun(files, worlds, actions) && Initial(worlds[0]) && k < |actions|
    requires actions[k].Commit? || actions[k].LostCommit?
    ensures actions[k].p in worlds[k].processes && worlds[k].processes[actions[k].p].next < |files|
    ensures worlds[k + 1].applied == Applied(worlds[k].applied, files[worlds[k].processes[actions[k].p].next])
  {
    RunKeeps(files, worlds, actions, k);
    assert Next(files, worlds[k], actions[k], worlds[k + 1]);
    CommitInTurn(files, worlds[0].applied, worlds[k], actions[k].p);
  }

  // ---------- what every run guarantees ----------

  ghost predicate NoRepeats(versions: seq<int>) {
    forall i, j :: 0 <= i < j < |versions| ==> versions[i] != versions[j]
  }

  lemma {:induction false} AppliedAllNoRepeats(start: seq<int>, versions: seq<int>)
    requires NoRepeats(start)
    ensures NoRepeats(AppliedAll(start, versions))
    decreases |versions|
  {
    if versions != [] { AppliedAllNoRepeats(start, versions[..|versions| - 1]); }
  }

  /**
   From any table, at every moment of every run: the list is what one process alone makes of the first so many
   files, no version is in it twice, and a process that has succeeded has seen every file applied.
   */
  lemma ExactlyOnceInOrder(files: seq<int>, worlds: seq<World>, actions: seq<Action>, k: nat)
    requires IsRun(files, worlds, actions) && Initial(worlds[0]) && k <= |actions|
    ensures exists n: nat :: InTurn(files, worlds[0].applied, worlds[k].applied, n)
    ensures NoRepeats(worlds[0].applied) ==> NoRepeats(worlds[k].applied)
    ensures forall p :: At(worlds[k], p, Succeeded) ==>
              && worlds[k].applied == AppliedAll(worlds[0].applied, files)
              && forall v :: v in files ==> v in worlds[k].applied
  {
    RunKeeps(files, worlds, actions, k);
    var n: nat :| InTurn(files, worlds[0].applied, worlds[k].applied, n);
    if NoRepeats(worlds[0].applied) { AppliedAllNoRepeats(worlds[0].applied, files[..n]); }
    forall p | At(worlds[k], p, Succeeded)
      ensures worlds[k].applied == AppliedAll(worlds[0].applied, files)
      ensures forall v :: v in files ==> v in worlds[k].applied
    {
      assert Knows(files, worlds[k], p);
      NothingNew(files, worlds[0].applied, n, |files|);
      assert files[..|files|] == files;
    }
  }

  /** Over a whole run each version's SQL is committed at most once, and only by growing the list. */
  lemma {:induction false} AppliedGrows(files: seq<int>, worlds: seq<World>, actions: seq<Action>, j: nat, k: nat)
    requires IsRun(files, worlds, actions) && j <= k <= |actions|
    ensures worlds[j].applied <= worlds[k].applied
    decreases k
  {
    if j < k {
      AppliedGrows(files, worlds, actions, j, k - 1);
      assert Next(files, worlds[k - 1], actions[k - 1], worlds[k]);
    }
  }

  /**
   The list is a prefix of the discovered versions, and so strictly ascending, at a moment of a run exactly when
   it was one at the start.
   */
  lemma PrefixExactly(files: seq<int>, worlds: seq<World>, actions: seq<Action>, k: nat)
    requires Ascending(files) && IsRun(files, worlds, actions) && Initial(worlds[0]) && k <= |actions|
    ensures worlds[k].applied <= files <==> worlds[0].applied <= files
    ensures worlds[k].applied <= files ==> Ascending(worlds[k].applied)
  {
    AppliedGrows(files, worlds, actions, 0, k);
    if worlds[0].applied <= files {
      ExactlyOnceInOrder(files, worlds, actions, k);
      var n: nat :| InTurn(files, worlds[0].applied, worlds[k].applied, n);
      AppliedAllExact(worlds[0].applied, files, n);
    }
  }

  /** The new versions of a list: what applying ascending files added to the start. */
  lemma {:induction false} AddedAscending(start: seq<int>, versions: seq<int>)
    requires Ascending(versions)
    ensures start <= AppliedAll(start, versions)
    ensures Ascending(AppliedAll(start, versions)[|start|..])
    ensures forall v :: v in AppliedAll(start, versions)[|start|..] ==> v in versions && v !in start
    decreases |versions|
  {
    if versions != [] {
      var shorter := versions[..|versions| - 1];
      AddedAscending(start, shorter);
      var before, after := AppliedAll(start, shorter), AppliedAll(start, versions);
      if after != before {
        assert after[|start|..] == before[|start|..] + [versions[|versions| - 1]];
        forall i | 0 <= i < |before[|start|..]| ensures before[|start|..][i] < versions[|versions| - 1] {
          assert before[|start|..][i] in shorter;
        }
      }
    }
  }

  /** It is ascending exactly when it was at the start and everything added since is above everything that was there. */
  lemma AscendingExactly(files: seq<int>, worlds: seq<World>, actions: seq<Action>, k: nat)
    requires Ascending(files) && IsRun(files, worlds, actions) && Initial(worlds[0]) && k <= |actions|
    ensures var start := worlds[0].applied;
            && start <= worlds[k].applied
            && (Ascending(worlds[k].applied) <==>
                  && Ascending(start)
                  && forall i, j :: 0 <= i < |start| <= j < |worlds[k].applied| ==> start[i] < worlds[k].applied[j])
  {
    var start, now := worlds[0].applied, worlds[k].applied;
    ExactlyOnceInOrder(files, worlds, actions, k);
    var n: nat :| InTurn(files, start, now, n);
    AddedAscending(start, files[..n]);
    if Ascending(start) && forall i, j :: 0 <= i < |start| <= j < |now| ==> start[i] < now[j] {
      forall i, j | 0 <= i < j < |now| ensures now[i] < now[j] {
        if |start| <= i { assert now[|start|..][i - |start|] < now[|start|..][j - |start|]; }
      }
    }
  }

  /** The discovered files the table does not hold are above every version it does. */
  ghost predicate MissingAbove(files: seq<int>, start: seq<int>) {
    forall i, v :: 0 <= i < |start| && v in files && v !in start ==> start[i] < v
  }

  lemma AllAppliedAscending(files: seq<int>, start: seq<int>)
    requires Ascending(files)
    ensures Ascending(AppliedAll(start, files)) <==> Ascending(start) && MissingAbove(files, start)
  {
    AddedAscending(start, files);
    var applied := AppliedAll(start, files);
    if Ascending(applied) {
      forall i, v | 0 <= i < |start| && v in files && v !in start ensures start[i] < v {
        var k :| 0 <= k < |files| && files[k] == v;
        AllApplied(start, files, k);
        var j :| 0 <= j < |applied| && applied[j] == v;
        assert applied == start + applied[|start|..];
      }
    }
    if Ascending(start) && MissingAbove(files, start) {
      forall i, j | 0 <= i < j < |applied| ensures applied[i] < applied[j] {
        assert i < |start| ==> applied[i] == start[i];
        if |start| <= j {
          var added := applied[|start|..];
          assert added[j - |start|] == applied[j] && added[j - |start|] in added;
          if |start| <= i { assert added[i - |start|] == applied[i]; }
        } else {
          assert applied[j] == start[j];
        }
      }
    }
  }

  /** Once a process has succeeded, the start alone decides: it was ascending and no missing file was below it. */
  lemma DoneAscendingExactly(files: seq<int>, worlds: seq<World>, actions: seq<Action>, k: nat, p: nat)
    requires Ascending(files) && IsRun(files, worlds, actions) && Initial(worlds[0]) && k <= |actions|
    requires At(worlds[k], p, Succeeded)
    ensures Ascending(worlds[k].applied) <==> Ascending(worlds[0].applied) && MissingAbove(files, worlds[0].applied)
  {
    ExactlyOnceInOrder(files, worlds, actions, k);
    AllAppliedAscending(files, worlds[0].applied);
  }

  /** A file added below an applied version is applied after it: files 1 and 2 over a table that holds 2. */
  lemma AppliedOutOfOrder() returns (worlds: seq<World>, actions: seq<Action>)
    ensures IsRun([1, 2], worlds, actions) && Initial(worlds[0]) && worlds[0].applied == [2]
    ensures worlds[|actions|].applied == [2, 1]
  {
    actions := [Begin(0), Lock(0), Check(0), RunSql(0), Record(0), Commit(0)];
    var none: map<nat, Process> := map[];
    worlds := [
      World([2], None, none),
      World([2], None, map[0 := Process(0, Waiting)]),
      World([2], Some(0), map[0 := Process(0, Locked)]),
      World([2], Some(0), map[0 := Process(0, Checked(false))]),
      World([2], Some(0), map[0 := Process(0, SqlRun)]),
      World([2], Some(0), map[0 := Process(0, Recorded)]),
      World([2, 1], None, map[0 := Process(1, Waiting)])];
  }

  /** Mutual exclusion: two processes are never inside their transactions' locked part at once. */
  lemma OneInside(files: seq<int>, worlds: seq<World>, actions: seq<Action>, k: nat, p: nat, q: nat)
    requires IsRun(files, worlds, actions) && Initial(worlds[0]) && k <= |actions|
    requires p in worlds[k].processes && q in worlds[k].processes
    requires InTransaction(worlds[k].processes[p].phase) && InTransaction(worlds[k].processes[q].phase)
    ensures p == q
  {
    RunKeeps(files, worlds, actions, k);
    assert Knows(files, worlds[k], p) && Knows(files, worlds[k], q);
  }
}
