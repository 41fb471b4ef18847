/** The two machines meet: tables of Durability are the files of Lsm, and the guard under which
    Durability lets a compaction be logged is what every compaction of Lsm satisfies. */
module Bridge {
  import opened Keys
  import opened Lookup
  import opened Files
  import opened Versions
  import opened Compaction
  import opened Install
  import D = Durability
  import L = Lsm

  ghost predicate IsTable(tables: map<nat, D.Table>, f: File) {
    f.number in tables && tables[f.number].entries == Elements(f.entries)
  }

  ghost predicate InVersion(v: Version, f: File) {
    exists l :: 0 <= l < NUM_LEVELS && f in v[l]
  }

  /** The tables named by a set of numbers are those of a list of files. */
  ghost predicate AreTables(tables: map<nat, D.Table>, numbers: set<nat>, fs: seq<File>) {
    && (forall f :: f in fs ==> IsTable(tables, f) && f.number in numbers)
    && forall n :: n in numbers ==> exists f :: f in fs && f.number == n
  }

  /** The version of one machine is the version of the other. */
  ghost predicate Represents(tables: map<nat, D.Table>, numbers: set<nat>, v: Version) {
    && (forall f :: InVersion(v, f) ==> IsTable(tables, f) && f.number in numbers)
    && (forall n :: n in numbers ==> exists f :: InVersion(v, f) && f.number == n)
    && forall f, g :: InVersion(v, f) && InVersion(v, g) && f.number == g.number ==> f == g
  }

  lemma TablesHold(tables: map<nat, D.Table>, numbers: set<nat>, fs: seq<File>)
    requires AreTables(tables, numbers, fs)
    ensures D.Entries(tables, numbers) == Contents(fs)
  {
    forall e | e in D.Entries(tables, numbers) ensures e in Contents(fs) {
      var n :| n in numbers && n in tables && e in tables[n].entries;
      var f :| f in fs && f.number == n;
      assert IsTable(tables, f);
    }
    forall e | e in Contents(fs) ensures e in D.Entries(tables, numbers) {
      var f :| f in fs && e in f.entries;
      assert IsTable(tables, f) && e in Elements(f.entries);
    }
  }

  lemma RestHolds(tables: map<nat, D.Table>, version: set<nat>, v: Version, j: Job, inputs: set<nat>)
    requires Represents(tables, version, v) && JobOk(v, j) && AreTables(tables, inputs, j.up + j.low)
    requires forall l, m, f :: 0 <= l < NUM_LEVELS && 0 <= m < NUM_LEVELS && f in v[l] && f in v[m] ==> l == m
    ensures D.Entries(tables, version - inputs) == Rest(v, j)
  {
    forall e | e in D.Entries(tables, version - inputs) ensures e in Rest(v, j) {
      var n :| n in version - inputs && n in tables && e in tables[n].entries;
      var f :| InVersion(v, f) && f.number == n;
      var l :| 0 <= l < NUM_LEVELS && f in v[l];
      assert IsTable(tables, f);
      assert IsInput(j, l, f) ==> f in j.up + j.low;
    }
    forall e | e in Rest(v, j) ensures e in D.Entries(tables, version - inputs) {
      var l, f :| 0 <= l < NUM_LEVELS && f in v[l] && !IsInput(j, l, f) && e in f.entries;
      assert InVersion(v, f) && IsTable(tables, f) && e in Elements(f.entries);
      InputByNumber(tables, version, v, j, inputs, l, f);
    }
  }

  lemma InputByNumber(tables: map<nat, D.Table>, version: set<nat>, v: Version, j: Job, inputs: set<nat>, l: nat, f: File)
    requires Represents(tables, version, v) && JobOk(v, j) && AreTables(tables, inputs, j.up + j.low)
    requires forall l, m, f :: 0 <= l < NUM_LEVELS && 0 <= m < NUM_LEVELS && f in v[l] && f in v[m] ==> l == m
    requires 0 <= l < NUM_LEVELS && f in v[l]
    ensures f.number in inputs ==> IsInput(j, l, f)
  {
    assert InVersion(v, f);
    if f.number in inputs {
      var g :| g in j.up + j.low && g.number == f.number;
      var m := if g in j.up then j.level else j.level + 1;
      assert g in v[m];
      assert InVersion(v, g);
    }
  }

  lemma DropIsProper(v: Version, j: Job, outs: seq<File>)
    requires Good(v) && JobOk(v, j) && OutputsOk(j, outs)
    ensures ProperDrop(Rest(v, j), Contents(j.up + j.low), Contents(outs), j.snapshot)
  {
    FinishIsProperDrop(v, j, outs, {});
    assert {} + Rest(v, j) == Rest(v, j);
  }

  lemma JobIsOk(v: Version, j: Job, outs: seq<File>, tables: map<nat, D.Table>, version: set<nat>, c: D.Compaction)
    requires Good(v) && JobOk(v, j) && OutputsOk(j, outs) && Represents(tables, version, v)
    requires forall l, m, f :: 0 <= l < NUM_LEVELS && 0 <= m < NUM_LEVELS && f in v[l] && f in v[m] ==> l == m
    requires AreTables(tables, c.inputs, j.up + j.low) && AreTables(tables, c.outs, outs) && c.low == j.snapshot
    ensures D.CompactionOk(tables, version, c)
  {
    RestHolds(tables, version, v, j, c.inputs);
    TablesHold(tables, c.inputs, j.up + j.low);
    TablesHold(tables, c.outs, outs);
    DropIsProper(v, j, outs);
  }

  /** The guard of Durability's CompactLog holds of every compaction Lsm can finish. */
  lemma FinishedCompactionIsOk(st: L.State, outs: seq<File>, st': L.State, tables: map<nat, D.Table>, version: set<nat>, c: D.Compaction)
    requires L.Inv(st) && L.Moves(st, L.Finish(outs), st') && Represents(tables, version, st.v)
    requires AreTables(tables, c.inputs, st.job.value.up + st.job.value.low) && AreTables(tables, c.outs, outs) && c.low == st.job.value.snapshot
    ensures D.CompactionOk(tables, version, c)
  {
    OneLevelEach(st);
    JobIsOk(st.v, st.job.value, outs, tables, version, c);
  }

  lemma OneLevelEach(st: L.State)
    requires L.Numbered(st)
    ensures forall l, m, f :: 0 <= l < NUM_LEVELS && 0 <= m < NUM_LEVELS && f in st.v[l] && f in st.v[m] ==> l == m
  {
    forall l, m, f | 0 <= l < m < NUM_LEVELS && f in st.v[l] ensures f !in st.v[m] {
      assert f.number !in st.used[m];
    }
  }

  /** What both machines read is the same. */
  lemma SameTables(tables: map<nat, D.Table>, version: set<nat>, v: Version)
    requires Represents(tables, version, v)
    ensures D.Entries(tables, version) == AllEntries(v)
  {
    forall e | e in D.Entries(tables, version) ensures e in AllEntries(v) {
      var n :| n in version && n in tables && e in tables[n].entries;
      var f :| InVersion(v, f) && f.number == n;
      assert IsTable(tables, f);
    }
    forall e | e in AllEntries(v) ensures e in D.Entries(tables, version) {
      var l, f :| 0 <= l < NUM_LEVELS && f in v[l] && e in f.entries;
      assert InVersion(v, f) && IsTable(tables, f) && e in Elements(f.entries);
    }
  }
}
