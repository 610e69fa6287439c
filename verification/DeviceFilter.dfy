/**
 filterOverlapByLibrary (discover/runner.go:406-454): which library directory keeps a device that
 several directories of one library support.
 */
module DeviceFilter {
  datatype Device = Device(id: string, library: string, filterId: string, pciId: string, description: string,
    memory: nat)

  // ----- Overlapping library directories ---------------------------------------------------------

  /** Of one library: the index of each supported device, by directory and device ID. */
  type Directories = map<string, map<string, nat>>

  ghost predicate Enumerates(dirs: seq<string>, tables: Directories) {
    (forall d :: d in dirs <==> d in tables) && forall i, j :: 0 <= i < j < |dirs| ==> dirs[i] != dirs[j]
  }

  ghost predicate AllAlike(tables: Directories, dirs: seq<string>)
    requires Enumerates(dirs, tables)
  {
    forall d :: d in tables ==> tables[d].Keys == tables[dirs[0]].Keys
  }

  /**
   The directory that is kept.  The test for a missing device is never reset, so it is the first
   directory if all support the same devices, and else the last.
   */
  ghost function Kept(tables: Directories, dirs: seq<string>): string
    requires Enumerates(dirs, tables)
  {
    if dirs == [] then ""
    else if AllAlike(tables, dirs) then dirs[0]
    else dirs[|dirs| - 1]
  }

  lemma SubsetOfSameSize(a: set<string>, b: set<string>)
    requires a <= b && |a| == |b|
    ensures a == b
  {
    assert |b - a| == 0;
  }

  lemma SameKeys(a: map<string, nat>, b: map<string, nat>)
    ensures (|a| == |b| && forall dev :: dev in a ==> dev in b) <==> a.Keys == b.Keys
  {
    assert |a.Keys| == |a| && |b.Keys| == |b|;
    if |a| == |b| && forall dev :: dev in a ==> dev in b {
      SubsetOfSameSize(a.Keys, b.Keys);
    }
  }

  /** The inner loop: does some directory differ from newest? */
  method SomeMissing(tables: Directories, dirs: seq<string>, newest: string) returns (missing: bool)
    requires Enumerates(dirs, tables) && newest in tables
    ensures missing <==> exists d :: d in tables && tables[d].Keys != tables[newest].Keys
  {
    missing := false;
    for j := 0 to |dirs|
      invariant missing <==> exists k :: 0 <= k < j && tables[dirs[k]].Keys != tables[newest].Keys
    {
      var dir := dirs[j];
      if dir != newest {
        SameKeys(tables[newest], tables[dir]);
        if |tables[newest]| != |tables[dir]| {
          return true;
        }
        if exists dev :: dev in tables[newest] && dev !in tables[dir] {
          missing := true;
        }
      }
    }
  }

  method ChooseDirectory(tables: Directories, dirs: seq<string>) returns (newest: string)
    requires Enumerates(dirs, tables)
    ensures newest == Kept(tables, dirs)
  {
    var anyMissing := false;
    newest := "";
    for i := 0 to |dirs|
      invariant if i == 0 then newest == "" && !anyMissing
                else newest == dirs[i - 1] && anyMissing && !AllAlike(tables, dirs)
    {
      newest := dirs[i];
      var missing := SomeMissing(tables, dirs, newest);
      anyMissing := anyMissing || missing;
      if !anyMissing {
        break;
      }
    }
  }

  /** Index i belongs to a directory other than kept, for a device that kept has too. */
  ghost predicate Overlaps(tables: Directories, kept: string, i: nat) {
    kept in tables && exists d, dev ::
      d in tables && d != kept && dev in tables[d] && dev in tables[kept] && tables[d][dev] == i
  }

  method MarkDirectory(table: map<string, nat>, keptTable: map<string, nat>, needsDelete: array<bool>)
    requires forall dev :: dev in table ==> table[dev] < needsDelete.Length
    modifies needsDelete
    ensures forall i :: 0 <= i < needsDelete.Length ==>
              (needsDelete[i] <==>
                old(needsDelete[i]) || exists dev :: dev in table && dev in keptTable && table[dev] == i)
  {
    var todo := table.Keys;
    while todo != {}
      invariant todo <= table.Keys
      invariant forall i :: 0 <= i < needsDelete.Length ==>
                  (needsDelete[i] <==>
                    old(needsDelete[i]) || exists dev ::
                      dev in table && dev !in todo && dev in keptTable && table[dev] == i)
      decreases todo
    {
      var dev :| dev in todo;
      todo := todo - {dev};
      if dev in keptTable {
        needsDelete[table[dev]] := true;
      }
    }
  }

  ghost predicate OverlapsAmong(tables: Directories, kept: string, dirs: seq<string>, i: nat) {
    kept in tables && exists d, dev ::
      d in dirs && d in tables && d != kept && dev in tables[d] && dev in tables[kept] && tables[d][dev] == i
  }

  method FilterLibrary(tables: Directories, dirs: seq<string>, needsDelete: array<bool>)
    requires Enumerates(dirs, tables)
    requires forall d, dev :: d in tables && dev in tables[d] ==> tables[d][dev] < needsDelete.Length
    modifies needsDelete
    ensures forall i :: 0 <= i < needsDelete.Length ==>
              (needsDelete[i] <==> old(needsDelete[i]) || Overlaps(tables, Kept(tables, dirs), i))
  {
    var newest := ChooseDirectory(tables, dirs);
    for j := 0 to |dirs|
      invariant forall i :: 0 <= i < needsDelete.Length ==>
                  (needsDelete[i] <==> old(needsDelete[i]) || OverlapsAmong(tables, newest, dirs[..j], i))
    {
      var dir := dirs[j];
      if dir != newest {
        MarkDirectory(tables[dir], tables[newest], needsDelete);
      }
      assert dirs[..j + 1] == dirs[..j] + [dir];
    }
    assert dirs[..|dirs|] == dirs;
  }

  /** All libraries; dirs gives each one's directories in descending order. */
  type Libraries = map<string, Directories>

  ghost predicate Ordered(supported: Libraries, dirs: map<string, seq<string>>) {
    forall lib :: lib in supported ==> lib in dirs && Enumerates(dirs[lib], supported[lib])
  }

  ghost predicate Marked(supported: Libraries, dirs: map<string, seq<string>>, i: nat)
    requires Ordered(supported, dirs)
  {
    exists lib :: lib in supported && Overlaps(supported[lib], Kept(supported[lib], dirs[lib]), i)
  }

  ghost predicate MarkedAmong(supported: Libraries, dirs: map<string, seq<string>>, libs: set<string>, i: nat)
    requires Ordered(supported, dirs)
  {
    exists lib :: lib in libs && lib in supported && Overlaps(supported[lib], Kept(supported[lib], dirs[lib]), i)
  }

  method FilterOverlapByLibrary(supported: Libraries, dirs: map<string, seq<string>>, needsDelete: array<bool>)
    requires Ordered(supported, dirs)
    requires forall lib, d, dev :: lib in supported && d in supported[lib] && dev in supported[lib][d] ==>
               supported[lib][d][dev] < needsDelete.Length
    modifies needsDelete
    ensures forall i :: 0 <= i < needsDelete.Length ==>
              (needsDelete[i] <==> old(needsDelete[i]) || Marked(supported, dirs, i))
  {
    hide Overlaps, Kept, Enumerates;
    var todo := supported.Keys;
    while todo != {}
      invariant todo <= supported.Keys
      invariant forall i :: 0 <= i < needsDelete.Length ==>
                  (needsDelete[i] <==> old(needsDelete[i]) || MarkedAmong(supported, dirs, supported.Keys - todo, i))
      decreases todo
    {
      var lib :| lib in todo;
      todo := todo - {lib};
      FilterLibrary(supported[lib], dirs[lib], needsDelete);
    }
  }

  /** No index stands for two entries. */
  ghost predicate Injective(supported: Libraries) {
    forall lib, d, dev, lib', d', dev' ::
      lib in supported && d in supported[lib] && dev in supported[lib][d] ==>
      lib' in supported && d' in supported[lib'] && dev' in supported[lib'][d'] ==>
      supported[lib][d][dev] == supported[lib'][d'][dev'] ==> lib == lib' && d == d' && dev == dev'
  }

  /**
   Every supported device survives in some directory of its library; where the kept directory
   has it, there and nowhere else.
   */
  lemma Coverage(supported: Libraries, dirs: map<string, seq<string>>, lib: string, d: string, dev: string)
    requires Ordered(supported, dirs) && Injective(supported)
    requires lib in supported && d in supported[lib] && dev in supported[lib][d]
    ensures exists d' :: d' in supported[lib] && dev in supported[lib][d']
              && !Marked(supported, dirs, supported[lib][d'][dev])
    ensures var kept := Kept(supported[lib], dirs[lib]);
            kept in supported[lib] && dev in supported[lib][kept] ==>
              (Marked(supported, dirs, supported[lib][d][dev]) <==> d != kept)
  {
    var tables, kept := supported[lib], Kept(supported[lib], dirs[lib]);
    var home := if kept in tables && dev in tables[kept] then kept else d;
    assert !Marked(supported, dirs, tables[home][dev]);
  }

  /** dirs[i] supports whatever any directory supports, and no directory before it does. */
  ghost predicate NewestCovering(tables: Directories, dirs: seq<string>, i: nat)
    requires Enumerates(dirs, tables)
  {
    && i < |dirs| && (forall d :: d in tables ==> tables[d].Keys <= tables[dirs[i]].Keys)
    && forall j :: 0 <= j < i ==> exists d :: d in tables && !(tables[d].Keys <= tables[dirs[j]].Keys)
  }

  /**
   The newest directory that supports every device is the one kept only if all directories are
   alike or it is the last.
   */
  lemma KeepsNewestCovering(tables: Directories, dirs: seq<string>, i: nat)
    requires Enumerates(dirs, tables) && NewestCovering(tables, dirs, i)
    ensures Kept(tables, dirs) == dirs[i] <==> AllAlike(tables, dirs) || i == |dirs| - 1
  {
    if i > 0 {
      var d :| d in tables && !(tables[d].Keys <= tables[dirs[0]].Keys);
      assert tables[d].Keys != tables[dirs[0]].Keys;
    }
  }

  /** Three directories of which only the middle one supports both devices: the oldest is kept. */
  lemma OldestIsKept()
    ensures var tables := map["v13" := map["0" := 0], "v12" := map["0" := 1, "1" := 2], "v11" := map["0" := 3]];
            var dirs := ["v13", "v12", "v11"];
            Enumerates(dirs, tables) && NewestCovering(tables, dirs, 1) && Kept(tables, dirs) == "v11"
  {
    var tables := map["v13" := map["0" := 0], "v12" := map["0" := 1, "1" := 2], "v11" := map["0" := 3]];
    assert "1" in tables["v12"] && "1" !in tables["v13"];
  }
}
