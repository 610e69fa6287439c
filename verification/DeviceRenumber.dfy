/**
 The loop of GPUDevices that deletes the marked devices and renumbers the rest while it walks
 over them (discover/runner.go:172-193, 557-573).
 */
module DeviceRenumber {
  import opened Wrappers
  import opened DeviceFilter

  /** strconv, and the user's list of visible devices of a library. */
  datatype Env = Env(atoi: string -> Option<int>, itoa: nat -> string, visible: string -> seq<string>)

  /** Printed numbers are read as numbers, and no two look the same. */
  ghost predicate Decimal(env: Env) {
    (forall n: nat :: env.atoi(env.itoa(n)).Some?) && forall m: nat, n: nat :: env.itoa(m) == env.itoa(n) ==> m == n
  }

  predicate Numeric(env: Env, d: Device) {
    env.atoi(d.id).Some?
  }

  /** The devices that are not marked, in order. */
  function Survivors(devices: seq<Device>, marks: seq<bool>): seq<Device>
    requires |devices| == |marks|
  {
    if devices == [] then []
    else
      var k := |devices| - 1;
      Survivors(devices[..k], marks[..k]) + if marks[k] then [] else [devices[k]]
  }

  /** How many of these devices belong to the library. */
  function Count(devices: seq<Device>, library: string): nat {
    if devices == [] then 0
    else
      var k := |devices| - 1;
      Count(devices[..k], library) + if devices[k].library == library then 1 else 0
  }

  function RemapFilter(env: Env, d: Device): Device {
    var tokens := env.visible(d.library);
    match env.atoi(if d.filterId == "" then d.id else d.filterId)
    case None => d
    case Some(index) => if 0 <= index < |tokens| then d.(filterId := tokens[index]) else d
  }

  /** A numeric ID becomes the rank within the library; the old one is what filters go by. */
  function Adjusted(env: Env, d: Device, rank: nat): Device {
    var e := if Numeric(env, d) then d.(filterId := d.id, id := env.itoa(rank)) else d;
    RemapFilter(env, e)
  }

  function Renumbered(env: Env, devices: seq<Device>): seq<Device> {
    seq(|devices|, k requires 0 <= k < |devices| => Adjusted(env, devices[k], Count(devices[..k], devices[k].library)))
  }

  lemma RenumberedMore(env: Env, devices: seq<Device>, d: Device)
    ensures Renumbered(env, devices + [d]) == Renumbered(env, devices) + [Adjusted(env, d, Count(devices, d.library))]
  {
    var all := devices + [d];
    assert forall k :: 0 <= k <= |devices| ==> all[..k] == devices[..k];
    assert devices[..|devices|] == devices;
  }

  lemma CountMore(devices: seq<Device>, d: Device, library: string)
    ensures Count(devices + [d], library) == Count(devices, library) + if d.library == library then 1 else 0
  {
    assert (devices + [d])[..|devices|] == devices;
  }

  lemma SurvivorsMore(devices: seq<Device>, marks: seq<bool>, k: nat)
    requires |devices| == |marks| && k < |devices|
    ensures Survivors(devices[..k + 1], marks[..k + 1]) ==
              Survivors(devices[..k], marks[..k]) + if marks[k] then [] else [devices[k]]
  {
    assert devices[..k + 1][..k] == devices[..k] && marks[..k + 1][..k] == marks[..k];
  }

  /** Devices before i are renumbered survivors, those from i on are still the input from k on. */
  ghost predicate Underway(
    env: Env, input: seq<Device>, marks: seq<bool>, devices: seq<Device>, needsDelete: seq<bool>, i: nat, k: nat)
    requires |input| == |marks|
  {
    && k <= |input| && i <= |devices| && |needsDelete| == |devices|
    && devices[..i] == Renumbered(env, Survivors(input[..k], marks[..k]))
    && devices[i..] == input[k..] && needsDelete[i..] == marks[k..]
  }

  lemma UnderwayHead(
    env: Env, input: seq<Device>, marks: seq<bool>, devices: seq<Device>, needsDelete: seq<bool>, i: nat, k: nat)
    requires |input| == |marks| && Underway(env, input, marks, devices, needsDelete, i, k) && i < |needsDelete|
    ensures k < |input| && devices[i] == input[k] && needsDelete[i] == marks[k]
  {
    hide Survivors, Renumbered;
    assert devices[i..][0] == devices[i] && needsDelete[i..][0] == needsDelete[i];
  }

  lemma UnderwayDelete(
    env: Env, input: seq<Device>, marks: seq<bool>, devices: seq<Device>, needsDelete: seq<bool>, i: nat, k: nat)
    requires |input| == |marks| && Underway(env, input, marks, devices, needsDelete, i, k)
    requires i < |needsDelete| && needsDelete[i]
    ensures Underway(env, input, marks,
              devices[..i] + devices[i + 1..], needsDelete[..i] + needsDelete[i + 1..], i, k + 1)
    ensures Survivors(input[..k + 1], marks[..k + 1]) == Survivors(input[..k], marks[..k])
  {
    hide Survivors, Renumbered;
    UnderwayHead(env, input, marks, devices, needsDelete, i, k);
    SurvivorsMore(input, marks, k);
    assert input[k + 1..] == input[k..][1..] && marks[k + 1..] == marks[k..][1..];
    assert devices[i + 1..] == devices[i..][1..] && needsDelete[i + 1..] == needsDelete[i..][1..];
    assert Survivors(input[..k], marks[..k]) + [] == Survivors(input[..k], marks[..k]);
    var less, marked := devices[..i] + devices[i + 1..], needsDelete[..i] + needsDelete[i + 1..];
    assert less[..i] == devices[..i] && less[i..] == devices[i + 1..] && marked[i..] == needsDelete[i + 1..];
  }

  lemma UnderwayKeep(
    env: Env, input: seq<Device>, marks: seq<bool>, devices: seq<Device>, needsDelete: seq<bool>, i: nat, k: nat)
    requires |input| == |marks| && Underway(env, input, marks, devices, needsDelete, i, k)
    requires i < |needsDelete| && !needsDelete[i]
    ensures k < |input| && devices[i] == input[k]
    ensures var done := Survivors(input[..k], marks[..k]);
            && Survivors(input[..k + 1], marks[..k + 1]) == done + [devices[i]]
            && Underway(env, input, marks,
                 devices[i := Adjusted(env, devices[i], Count(done, devices[i].library))], needsDelete, i + 1, k + 1)
  {
    hide Survivors, Renumbered, Adjusted, Count;
    UnderwayHead(env, input, marks, devices, needsDelete, i, k);
    SurvivorsMore(input, marks, k);
    var done := Survivors(input[..k], marks[..k]);
    RenumberedMore(env, done, devices[i]);
    var next := devices[i := Adjusted(env, devices[i], Count(done, devices[i].library))];
    assert next[..i + 1] == devices[..i] + [next[i]];
    assert input[k + 1..] == input[k..][1..] && marks[k + 1..] == marks[k..][1..];
    assert next[i + 1..] == devices[i..][1..] && needsDelete[i + 1..] == needsDelete[i..][1..];
  }

  lemma UnderwayEnd(
    env: Env, input: seq<Device>, marks: seq<bool>, devices: seq<Device>, needsDelete: seq<bool>, i: nat, k: nat)
    requires |input| == |marks| && Underway(env, input, marks, devices, needsDelete, i, k) && i >= |needsDelete|
    ensures devices == Renumbered(env, Survivors(input, marks))
  {
    hide Survivors, Renumbered;
    assert input[k..] == [] && devices[..i] == devices && input[..k] == input && marks[..k] == marks;
  }

  /** The counters hold how many of done belong to each library. */
  ghost predicate Counts(counters: map<string, nat>, done: seq<Device>) {
    forall lib :: Count(done, lib) == if lib in counters then counters[lib] else 0
  }

  lemma CountGrows(devices: seq<Device>, d: Device)
    ensures forall lib :: Count(devices + [d], lib) == Count(devices, lib) + if d.library == lib then 1 else 0
  {
    forall lib ensures Count(devices + [d], lib) == Count(devices, lib) + if d.library == lib then 1 else 0 {
      CountMore(devices, d, lib);
    }
  }

  lemma CountsMore(counters: map<string, nat>, done: seq<Device>, d: Device)
    requires Counts(counters, done)
    ensures Counts(counters[d.library := Count(done, d.library) + 1], done + [d])
  {
    hide Count;
    CountGrows(done, d);
  }

  lemma Nothing(env: Env, devices: seq<Device>, marks: seq<bool>)
    requires |devices| == |marks|
    ensures Counts(map[], Survivors(devices[..0], marks[..0]))
    ensures Underway(env, devices, marks, devices, marks, 0, 0)
  {
    assert devices[0..] == devices && marks[0..] == marks;
    assert Renumbered(env, []) == [];
  }

  method DeleteAndRenumber(env: Env, input: seq<Device>, marks: seq<bool>) returns (devices: seq<Device>)
    requires |input| == |marks|
    ensures devices == Renumbered(env, Survivors(input, marks))
  {
    hide Survivors, Renumbered, Count, Adjusted, Underway;
    devices := input;
    var needsDelete := marks;
    var postFilteredId: map<string, nat> := map[];
    var i := 0;
    ghost var k := 0;
    Nothing(env, input, marks);
    while i < |needsDelete|
      invariant k <= |input| && |needsDelete| == |devices| && Underway(env, input, marks, devices, needsDelete, i, k)
      invariant Counts(postFilteredId, Survivors(input[..k], marks[..k]))
      decreases |needsDelete| - i
    {
      UnderwayHead(env, input, marks, devices, needsDelete, i, k);
      if needsDelete[i] {
        UnderwayDelete(env, input, marks, devices, needsDelete, i, k);
        devices := devices[..i] + devices[i + 1..];
        needsDelete := needsDelete[..i] + needsDelete[i + 1..];
      } else {
        UnderwayKeep(env, input, marks, devices, needsDelete, i, k);
        var d := devices[i];
        CountsMore(postFilteredId, Survivors(input[..k], marks[..k]), d);
        if d.library !in postFilteredId {
          postFilteredId := postFilteredId[d.library := 0];
        }
        var rank := postFilteredId[d.library];
        devices := devices[i := Adjusted(env, d, rank)];
        postFilteredId := postFilteredId[d.library := rank + 1];
        i := i + 1;
      }
      k := k + 1;
    }
    UnderwayEnd(env, input, marks, devices, needsDelete, i, k);
  }

  // ----- What the pass promises --------------------------------------------------------------------

  /** The places in from, ascending, are the unmarked ones, and s is what stands there. */
  ghost predicate Selects(devices: seq<Device>, marks: seq<bool>, from: seq<nat>, s: seq<Device>)
    requires |devices| == |marks|
  {
    && |from| == |s| && (forall i, j :: 0 <= i < j < |from| ==> from[i] < from[j])
    && (forall i :: 0 <= i < |from| ==> from[i] < |devices| && !marks[from[i]] && s[i] == devices[from[i]])
    && (forall k :: 0 <= k < |devices| && !marks[k] ==> k in from)
  }

  lemma SelectsMore(devices: seq<Device>, marks: seq<bool>, k: nat, from: seq<nat>, s: seq<Device>)
    requires |devices| == |marks| == k + 1 && Selects(devices[..k], marks[..k], from, s)
    ensures if marks[k] then Selects(devices, marks, from, s) else Selects(devices, marks, from + [k], s + [devices[k]])
  {
    var ds, ms := devices[..k], marks[..k];
    assert forall i :: 0 <= i < k ==> ds[i] == devices[i] && ms[i] == marks[i];
  }

  /** The survivors are the unmarked devices, each once and in order. */
  lemma {:induction false} SurvivorsAreUnmarked(devices: seq<Device>, marks: seq<bool>) returns (from: seq<nat>)
    requires |devices| == |marks|
    ensures Selects(devices, marks, from, Survivors(devices, marks))
    decreases |devices|
  {
    from := [];
    if devices != [] {
      hide Selects;
      var k := |devices| - 1;
      from := SurvivorsAreUnmarked(devices[..k], marks[..k]);
      SelectsMore(devices, marks, k, from, Survivors(devices[..k], marks[..k]));
      if marks[k] {
        assert Survivors(devices, marks) == Survivors(devices[..k], marks[..k]);
      } else {
        from := from + [k];
      }
    }
  }

  ghost predicate DistinctIds(ds: seq<Device>) {
    forall i, j :: 0 <= i < j < |ds| ==> ds[i].library != ds[j].library || ds[i].id != ds[j].id
  }

  /** No two devices with names for IDs share library and ID. */
  ghost predicate DistinctNames(env: Env, ds: seq<Device>) {
    forall i, j :: 0 <= i < j < |ds| && !Numeric(env, ds[i]) && !Numeric(env, ds[j]) ==>
      ds[i].library != ds[j].library || ds[i].id != ds[j].id
  }

  lemma {:induction false} CountRises(ds: seq<Device>, i: nat, j: nat)
    requires i < j <= |ds|
    ensures Count(ds[..i], ds[i].library) < Count(ds[..j], ds[i].library)
    decreases j
  {
    assert ds[..j][..j - 1] == ds[..j - 1];
    if i < j - 1 {
      CountRises(ds, i, j - 1);
    }
  }

  /** Renumbering changes numeric IDs only, to the rank. */
  lemma RenumberedAt(env: Env, ds: seq<Device>, k: nat)
    requires k < |ds|
    ensures var d := Renumbered(env, ds)[k];
            && d.library == ds[k].library
            && d.id == if Numeric(env, ds[k]) then env.itoa(Count(ds[..k], ds[k].library)) else ds[k].id
  {
    hide Count;
  }

  /**
   What filters go by afterwards.  A numeric ID is kept as the filter ID, unless the user's list of visible
   devices has a token at that place, which is taken instead; a filter ID given before is looked up alike.
   Nothing else of a device changes.
   */
  lemma FiltersGoBy(env: Env, ds: seq<Device>, k: nat)
    requires k < |ds| && env.atoi("").None?
    ensures var d, r, tokens := ds[k], Renumbered(env, ds)[k], env.visible(ds[k].library);
            var kept := if Numeric(env, d) then d.id else d.filterId;
            var at := env.atoi(kept);
            && r == d.(id := r.id, filterId := r.filterId)
            && r.filterId == if at.Some? && 0 <= at.value < |tokens| then tokens[at.value] else kept
  {
    hide Count;
  }

  lemma {:induction false} CountNone(ds: seq<Device>, library: string)
    requires forall i :: 0 <= i < |ds| ==> ds[i].library != library
    ensures Count(ds, library) == 0
  {
    if ds != [] {
      CountNone(ds[..|ds| - 1], library);
    }
  }

  lemma {:induction false} CountNext(ds: seq<Device>, i: nat, j: nat)
    requires i < j <= |ds| && forall k :: i < k < j ==> ds[k].library != ds[i].library
    ensures Count(ds[..j], ds[i].library) == Count(ds[..i], ds[i].library) + 1
    decreases j
  {
    assert ds[..j][..j - 1] == ds[..j - 1];
    if i < j - 1 {
      CountNext(ds, i, j - 1);
    }
  }

  /** Numeric IDs count up from zero within each library, names taking their place in the count. */
  lemma RanksCountUp(env: Env, ds: seq<Device>, i: nat, j: nat) returns (rank: nat)
    requires i < j < |ds| && Numeric(env, ds[i]) && Numeric(env, ds[j]) && ds[i].library == ds[j].library
    requires forall k :: i < k < j ==> ds[k].library != ds[i].library
    ensures Renumbered(env, ds)[i].id == env.itoa(rank) && Renumbered(env, ds)[j].id == env.itoa(rank + 1)
    ensures (forall k :: 0 <= k < i ==> ds[k].library != ds[i].library) ==> rank == 0
  {
    hide Renumbered, Count;
    RenumberedAt(env, ds, i);
    RenumberedAt(env, ds, j);
    CountNext(ds, i, j);
    rank := Count(ds[..i], ds[i].library);
    if forall k :: 0 <= k < i ==> ds[k].library != ds[i].library {
      CountNone(ds[..i], ds[i].library);
    }
  }

  lemma ApartAfter(env: Env, ds: seq<Device>, i: nat, j: nat)
    requires Decimal(env) && i < j < |ds|
    requires Numeric(env, ds[i]) || Numeric(env, ds[j]) || ds[i].library != ds[j].library || ds[i].id != ds[j].id
    ensures var r := Renumbered(env, ds); r[i].library != r[j].library || r[i].id != r[j].id
  {
    hide Count, Renumbered, Adjusted;
    RenumberedAt(env, ds, i);
    RenumberedAt(env, ds, j);
    CountRises(ds, i, j);
  }

  lemma RenumberedLength(env: Env, ds: seq<Device>)
    ensures |Renumbered(env, ds)| == |ds|
  {}

  /** After renumbering (Library, ID) identifies a device, if and only if the names did already. */
  lemma RenumberedIdsDistinct(env: Env, ds: seq<Device>)
    requires Decimal(env)
    ensures DistinctIds(Renumbered(env, ds)) <==> DistinctNames(env, ds)
  {
    hide Renumbered, Numeric, Decimal;
    var r := Renumbered(env, ds);
    RenumberedLength(env, ds);
    if DistinctNames(env, ds) {
      forall i, j | 0 <= i < j < |r| ensures r[i].library != r[j].library || r[i].id != r[j].id {
        ApartAfter(env, ds, i, j);
      }
    }
    if DistinctIds(r) {
      forall i, j | 0 <= i < j < |ds| && !Numeric(env, ds[i]) && !Numeric(env, ds[j])
        ensures ds[i].library != ds[j].library || ds[i].id != ds[j].id
      {
        RenumberedAt(env, ds, i);
        RenumberedAt(env, ds, j);
      }
    }
  }
}
