/** The migration runner (internal/database/db.go, RunMigrations). */
module Migrations {
  import opened Base

  /** A directory entry; `version` is what the name's leading digits parse to, if they do. */
  datatype Entry = Entry(name: string, isDir: bool, version: Option<int>)

  datatype Migration = Migration(version: int, file: string)

  /** schema_migrations, in insertion order, and the files whose statements have taken effect. */
  datatype Schema = Schema(recorded: seq<int>, effects: seq<Migration>)

  const FRESH := Schema([], [])

  /** How a run goes: cleanly, or failing at file number `index`, whose transaction may still
      have taken effect if it was the commit that reported the error. */
  datatype Plan = Clean | FailAt(index: nat, durable: bool)

  predicate HasSuffix(name: string, suffix: string) {
    |suffix| <= |name| && name[|name| - |suffix|..] == suffix
  }

  function Discovered(entries: seq<Entry>): seq<Migration> {
    if entries == [] then [] else
      var e := entries[|entries| - 1];
      Discovered(entries[..|entries| - 1])
      + if e.isDir || !HasSuffix(e.name, ".up.sql") || e.version.None? then [] else [Migration(e.version.value, e.name)]
  }

  /** A plain file whose name ends in .up.sql and begins with a version number. */
  predicate IsUpFile(e: Entry) {
    !e.isDir && e.version.Some? && |e.name| >= 7 && e.name[|e.name| - 7..] == ".up.sql"
  }

  /** What is discovered is the version and name of each up file, as many as there are, and
      nothing else. */
  lemma DiscoversUpFiles(entries: seq<Entry>)
    ensures forall i :: 0 <= i < |entries| && IsUpFile(entries[i]) ==>
              Migration(entries[i].version.value, entries[i].name) in Discovered(entries)
    ensures forall m :: m in Discovered(entries) ==>
              exists i :: 0 <= i < |entries| && IsUpFile(entries[i])
                          && entries[i].version == Some(m.version) && entries[i].name == m.file
    ensures |Discovered(entries)| == |UpFiles(entries)|
  {
    forall i | 0 <= i < |entries| && IsUpFile(entries[i])
      ensures Migration(entries[i].version.value, entries[i].name) in Discovered(entries)
    {
      UpFileIsDiscovered(entries, i);
    }
    forall m | m in Discovered(entries)
      ensures exists i :: 0 <= i < |entries| && IsUpFile(entries[i])
                          && entries[i].version == Some(m.version) && entries[i].name == m.file
    {
      var i := DiscoveredIsUpFile(entries, m);
    }
    DiscoveredCount(entries);
  }

  lemma {:induction false} UpFileIsDiscovered(entries: seq<Entry>, i: nat)
    requires i < |entries| && IsUpFile(entries[i])
    ensures Migration(entries[i].version.value, entries[i].name) in Discovered(entries)
  {
    if i < |entries| - 1 {
      UpFileIsDiscovered(entries[..|entries| - 1], i);
    }
  }

  lemma {:induction false} DiscoveredIsUpFile(entries: seq<Entry>, m: Migration) returns (i: nat)
    requires m in Discovered(entries)
    ensures i < |entries| && IsUpFile(entries[i])
    ensures entries[i].version == Some(m.version) && entries[i].name == m.file
  {
    var n := |entries| - 1;
    if m in Discovered(entries[..n]) {
      i := DiscoveredIsUpFile(entries[..n], m);
    } else {
      i := n;
    }
  }

  function UpFiles(entries: seq<Entry>): set<int> {
    set i | 0 <= i < |entries| && IsUpFile(entries[i])
  }

  lemma {:induction false} DiscoveredCount(entries: seq<Entry>)
    ensures |Discovered(entries)| == |UpFiles(entries)|
  {
    if entries != [] {
      var n := |entries| - 1;
      DiscoveredCount(entries[..n]);
      UpFilesGrow(entries[..n], entries[n]);
      assert entries == entries[..n] + [entries[n]];
    }
  }

  lemma UpFilesGrow(entries: seq<Entry>, e: Entry)
    ensures |UpFiles(entries + [e])| == |UpFiles(entries)| + if IsUpFile(e) then 1 else 0
  {
    var n := |entries|;
    forall i ensures i in UpFiles(entries + [e]) <==> i in UpFiles(entries) || (i == n && IsUpFile(e)) {
      if 0 <= i < n {
        assert (entries + [e])[i] == entries[i];
      }
    }
    assert UpFiles(entries + [e]) == UpFiles(entries) + if IsUpFile(e) then {n} else {};
  }

  function Insert(m: Migration, s: seq<Migration>): seq<Migration> {
    if s == [] || m.version < s[0].version then [m] + s else [s[0]] + Insert(m, s[1..])
  }

  function SortByVersion(ms: seq<Migration>): seq<Migration> {
    if ms == [] then [] else Insert(ms[|ms| - 1], SortByVersion(ms[..|ms| - 1]))
  }

  predicate SortedByVersion(ms: seq<Migration>) {
    forall i, j :: 0 <= i < j < |ms| ==> ms[i].version <= ms[j].version
  }

  lemma {:induction false} InsertPermutes(m: Migration, s: seq<Migration>)
    ensures multiset(Insert(m, s)) == multiset(s) + multiset{m}
  {
    if s != [] && m.version >= s[0].version {
      InsertPermutes(m, s[1..]);
      assert s == [s[0]] + s[1..];
    }
  }

  lemma {:induction false} InsertSorts(m: Migration, s: seq<Migration>)
    requires SortedByVersion(s)
    ensures SortedByVersion(Insert(m, s))
    ensures Insert(m, s)[0].version == if s == [] || m.version < s[0].version then m.version else s[0].version
  {
    if s != [] && m.version >= s[0].version {
      InsertSorts(m, s[1..]);
      var rest := Insert(m, s[1..]);
      assert s[0].version <= rest[0].version;
      assert forall j :: 0 < j < |rest| ==> rest[0].version <= rest[j].version;
    }
  }

  /** The sort is a sorted permutation of what was discovered. */
  lemma {:induction false} SortSorts(ms: seq<Migration>)
    ensures SortedByVersion(SortByVersion(ms))
    ensures multiset(SortByVersion(ms)) == multiset(ms)
  {
    if ms != [] {
      var n := |ms| - 1;
      SortSorts(ms[..n]);
      InsertSorts(ms[n], SortByVersion(ms[..n]));
      InsertPermutes(ms[n], SortByVersion(ms[..n]));
      assert ms == ms[..n] + [ms[n]];
    }
  }

  /** SELECT COALESCE(MAX(version), 0). */
  function CurrentVersion(recorded: seq<int>): int {
    if recorded == [] then 0
    else if |recorded| == 1 then recorded[0]
    else var m := CurrentVersion(recorded[..|recorded| - 1]);
         if recorded[|recorded| - 1] > m then recorded[|recorded| - 1] else m
  }

  /** The highest recorded version, or 0 on a fresh database. */
  lemma {:induction false} CurrentIsHighest(recorded: seq<int>)
    ensures recorded == [] ==> CurrentVersion(recorded) == 0
    ensures recorded != [] ==> CurrentVersion(recorded) in recorded
    ensures forall v :: v in recorded ==> v <= CurrentVersion(recorded)
  {
    if |recorded| > 1 {
      CurrentIsHighest(recorded[..|recorded| - 1]);
      assert recorded == recorded[..|recorded| - 1] + [recorded[|recorded| - 1]];
    }
  }

  function Applied(s: Schema, m: Migration): Schema {
    Schema(s.recorded + [m.version], s.effects + [m])
  }

  /** The apply loop from file i on: already covered versions are skipped; a version that is
      recorded but above the current one violates the primary key and stops the run. */
  function RunFrom(cur: int, s: Schema, files: seq<Migration>, plan: Plan, i: nat): (Schema, bool)
    requires i <= |files|
    decreases |files| - i
  {
    if i == |files| then (s, true)
    else if files[i].version <= cur then RunFrom(cur, s, files, plan, i + 1)
    else if files[i].version in s.recorded then (s, false)
    else if plan.FailAt? && plan.index == i
    then (if plan.durable then Applied(s, files[i]) else s, false)
    else RunFrom(cur, Applied(s, files[i]), files, plan, i + 1)
  }

  function Run(s: Schema, files: seq<Migration>, plan: Plan): (Schema, bool) {
    RunFrom(CurrentVersion(s.recorded), s, files, plan, 0)
  }

  class SchemaDb {
    var schema: Schema

    constructor ()
      ensures schema == FRESH
    {
      schema := FRESH;
    }

    /** A run either stops before touching any migration or goes as some plan says; success
        means it went cleanly. */
    method RunMigrations(entries: seq<Entry>) returns (ok: bool)
      modifies this
      ensures (!ok && schema == old(schema)) ||
              exists plan :: (schema, ok) == Run(old(schema), SortByVersion(Discovered(entries)), plan)
                             && (ok ==> plan.Clean?)
    {
      var created, queried, listed := *, *, *;
      if !created || !queried || !listed {
        return false;
      }
      var current := CurrentVersion(schema.recorded);
      var migrations := Discover(entries);
      var files := SortMigrations(migrations);
      ghost var before := schema;
      ghost var plan;
      ok, plan := ApplyPending(current, files);
      assert (schema, ok) == Run(before, SortByVersion(Discovered(entries)), plan);
    }

    static method Discover(entries: seq<Entry>) returns (migrations: seq<Migration>)
      ensures migrations == Discovered(entries)
    {
      migrations := [];
      for i := 0 to |entries|
        invariant migrations == Discovered(entries[..i])
      {
        assert entries[..i + 1][..i] == entries[..i];
        if entries[i].isDir || !HasSuffix(entries[i].name, ".up.sql") {
          continue;
        }
        if entries[i].version.None? {
          continue;
        }
        migrations := migrations + [Migration(entries[i].version.value, entries[i].name)];
      }
      assert entries[..|entries|] == entries;
    }

    static method SortMigrations(migrations: seq<Migration>) returns (sorted: seq<Migration>)
      ensures sorted == SortByVersion(migrations)
      ensures SortedByVersion(sorted) && multiset(sorted) == multiset(migrations)
    {
      sorted := [];
      for i := 0 to |migrations|
        invariant sorted == SortByVersion(migrations[..i])
      {
        assert migrations[..i + 1][..i] == migrations[..i];
        sorted := Insert(migrations[i], sorted);
      }
      assert migrations[..|migrations|] == migrations;
      SortSorts(migrations);
    }

    method ApplyPending(current: int, files: seq<Migration>) returns (ok: bool, ghost plan: Plan)
      modifies this
      ensures (schema, ok) == RunFrom(current, old(schema), files, plan, 0) && (ok ==> plan.Clean?)
    {
      for i := 0 to |files|
        invariant forall p: Plan :: (p.FailAt? ==> p.index >= i) ==>
                    RunFrom(current, old(schema), files, p, 0) == RunFrom(current, schema, files, p, i)
      {
        if files[i].version <= current {
          continue;
        }
        var failed, durable := *, *;
        if files[i].version in schema.recorded {
          return false, Clean;
        }
        if failed {
          plan := FailAt(i, durable);
          assert RunFrom(current, old(schema), files, plan, 0) == RunFrom(current, schema, files, plan, i);
          if durable {
            schema := Applied(schema, files[i]);
          }
          return false, plan;
        }
        schema := Applied(schema, files[i]);
      }
      return true, Clean;
    }
  }

  // ---- resumability ---------------------------------------------------------------

  function Versions(ms: seq<Migration>): seq<int> {
    seq(|ms|, i requires 0 <= i < |ms| => ms[i].version)
  }

  predicate DistinctPositive(files: seq<Migration>) {
    && (forall i :: 0 <= i < |files| ==> files[i].version > 0)
    && (forall i, j :: 0 <= i < j < |files| ==> files[i].version != files[j].version)
  }

  /** Exactly the first files, in order and once each, have taken effect and been recorded. */
  predicate IsPrefix(files: seq<Migration>, s: Schema) {
    s.effects <= files && s.recorded == Versions(s.effects)
  }

  lemma {:induction false} CurrentIsLast(files: seq<Migration>, n: nat)
    requires SortedByVersion(files) && DistinctPositive(files) && n <= |files|
    ensures CurrentVersion(Versions(files[..n])) == if n == 0 then 0 else files[n - 1].version
  {
    if n > 1 {
      CurrentIsLast(files, n - 1);
      assert Versions(files[..n])[..n - 1] == Versions(files[..n - 1]);
    }
  }

  /** From a prefix state the loop, at any file, keeps the prefix and only extends it; a clean
      run completes it. */
  lemma {:induction false} RunFromPrefix(files: seq<Migration>, n: nat, s: Schema, plan: Plan, i: nat)
    requires SortedByVersion(files) && DistinctPositive(files) && n <= |files| && i <= |files|
    requires IsPrefix(files, s) && |s.effects| == if i <= n then n else i
    ensures var cur := if n == 0 then 0 else files[n - 1].version;
            var (s', ok) := RunFrom(cur, s, files, plan, i);
            && IsPrefix(files, s') && s.effects <= s'.effects
            && (ok ==> s'.effects == files) && (plan.Clean? ==> ok)
            && (n == |files| ==> ok && s' == s)
    decreases |files| - i
  {
    if i < |files| {
      if i < n {
        assert files[i].version <= files[n - 1].version;
        RunFromPrefix(files, n, s, plan, i + 1);
      } else {
        var s1 := Applied(s, files[i]);
        assert s1.effects == files[..i + 1];
        assert s1.recorded == Versions(s1.effects);
        RunFromPrefix(files, n, s1, plan, i + 1);
        assert forall v :: v in s.recorded ==> exists j :: 0 <= j < i && files[j].version == v;
      }
    }
  }

  lemma RunKeepsPrefix(files: seq<Migration>, s: Schema, plan: Plan)
    requires SortedByVersion(files) && DistinctPositive(files) && IsPrefix(files, s)
    ensures var (s', ok) := Run(s, files, plan);
            && IsPrefix(files, s') && s.effects <= s'.effects
            && (ok ==> s'.effects == files) && (plan.Clean? ==> ok)
            && (s.effects == files ==> ok && s' == s)
  {
    var n := |s.effects|;
    assert s.effects == files[..n];
    CurrentIsLast(files, n);
    RunFromPrefix(files, n, s, plan, 0);
  }

  /** The schema after a sequence of runs from a fresh database. */
  function AfterRuns(files: seq<Migration>, plans: seq<Plan>): Schema {
    if plans == [] then FRESH
    else Run(AfterRuns(files, plans[..|plans| - 1]), files, plans[|plans| - 1]).0
  }

  lemma {:induction false} RunsKeepPrefix(files: seq<Migration>, plans: seq<Plan>)
    requires SortedByVersion(files) && DistinctPositive(files)
    ensures IsPrefix(files, AfterRuns(files, plans))
  {
    if plans != [] {
      var before := plans[..|plans| - 1];
      RunsKeepPrefix(files, before);
      RunKeepsPrefix(files, AfterRuns(files, before), plans[|plans| - 1]);
    }
  }

  /** Resumable migrations: after any sequence of runs, each stopped at an arbitrary failing
      migration, the recorded versions are a prefix of the sorted list and each of its effects
      has been applied exactly once, in order; one clean run completes the list, and any
      further run, however faulty, changes nothing. */
  lemma ResumableMigrations(files: seq<Migration>, plans: seq<Plan>, last: Plan)
    requires SortedByVersion(files) && DistinctPositive(files)
    ensures var s := AfterRuns(files, plans);
            var done := Run(s, files, Clean);
            && s.effects <= files && s.recorded == Versions(s.effects)
            && done.1 && done.0 == Schema(Versions(files), files)
            && Run(done.0, files, last) == (done.0, true)
  {
    RunsKeepPrefix(files, plans);
    var s := AfterRuns(files, plans);
    RunKeepsPrefix(files, s, Clean);
    RunKeepsPrefix(files, Run(s, files, Clean).0, last);
  }

  lemma {:induction false} EffectsBound(cur: int, s: Schema, files: seq<Migration>, i: nat)
    requires i <= |files|
    ensures |RunFrom(cur, s, files, Clean, i).0.effects| <= |s.effects| + |files| - i
    ensures forall j :: i <= j < |files| && files[j].version <= cur ==>
              |RunFrom(cur, s, files, Clean, i).0.effects| < |s.effects| + |files| - i
    ensures forall j :: i <= j < |files| && files[j].version in s.recorded ==>
              |RunFrom(cur, s, files, Clean, i).0.effects| < |s.effects| + |files| - i
    ensures forall j, k :: i <= j < k < |files| && files[j].version == files[k].version ==>
              |RunFrom(cur, s, files, Clean, i).0.effects| < |s.effects| + |files| - i
    decreases |files| - i
  {
    if i < |files| {
      EffectsBound(cur, s, files, i + 1);
      EffectsBound(cur, Applied(s, files[i]), files, i + 1);
      assert files[i].version in Applied(s, files[i]).recorded;
      assert forall v :: v in s.recorded ==> v in Applied(s, files[i]).recorded;
    }
  }

  /** Distinct positive versions are exactly what it takes for a fresh, fault-free run to apply
      every file: a version of 0 or below is always skipped, and of two files with the same
      version the second can never be recorded. */
  lemma CleanRunCompletesIff(files: seq<Migration>)
    requires SortedByVersion(files)
    ensures Run(FRESH, files, Clean) == (Schema(Versions(files), files), true) <==> DistinctPositive(files)
  {
    if DistinctPositive(files) {
      RunKeepsPrefix(files, FRESH, Clean);
    } else {
      EffectsBound(0, FRESH, files, 0);
    }
  }
}
