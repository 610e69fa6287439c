/**
 The last loop of GPUDevices (discover/runner.go:196-237): one physical device seen through
 several libraries is kept once.

 Devices are compared as in ml/device.go:451-499; EqualFold is equality of case-folded strings.
 */
module DeviceDedup {
  import opened DeviceFilter

  datatype Comparison = UniqueDevice | SameBackendDevice | DuplicateDevice

  /** Case folding, the normal form of a description, and which memory sizes are similar. */
  datatype Rules = Rules(fold: string -> string, normal: string -> string, similar: (nat, nat) -> bool)

  predicate Preferred(d: Device) {
    d.library == "CUDA" || d.library == "ROCm"
  }

  predicate LikelyVulkanDuplicate(r: Rules, a: Device, b: Device) {
    var vulkan, other := if b.library == "Vulkan" then b else a, if b.library == "Vulkan" then a else b;
    && a.library != b.library && vulkan.library == "Vulkan" && Preferred(other)
    && r.normal(vulkan.description) != "" && r.normal(vulkan.description) == r.normal(other.description)
    && r.similar(vulkan.memory, other.memory)
  }

  function Compare(r: Rules, a: Device, b: Device): Comparison {
    if a.pciId != "" && b.pciId != "" then
      if r.fold(a.pciId) != r.fold(b.pciId) then UniqueDevice
      else if a.library == b.library then SameBackendDevice
      else DuplicateDevice
    else if LikelyVulkanDuplicate(r, a, b) then DuplicateDevice
    else if a.pciId != b.pciId then UniqueDevice
    else if a.pciId == "" && (a.id != b.id || a.library != b.library) then UniqueDevice
    else if a.library == b.library then SameBackendDevice
    else DuplicateDevice
  }

  predicate Related(r: Rules, a: Device, b: Device) {
    Compare(r, a, b) != UniqueDevice
  }

  /** Which of two related devices is kept, a being the one in front. */
  function Winner(r: Rules, a: Device, b: Device): Device {
    if Compare(r, a, b) == DuplicateDevice && !Preferred(a) then b else a
  }

  // ----- The pass as a function ------------------------------------------------------------------

  /** What cur has become, and what is left of the list, after the inner loop. */
  function Champion(r: Rules, cur: Device, ds: seq<Device>): Device
    decreases |ds|
  {
    if ds == [] then cur
    else Champion(r, if Related(r, cur, ds[0]) then Winner(r, cur, ds[0]) else cur, ds[1..])
  }

  function Others(r: Rules, cur: Device, ds: seq<Device>): (rest: seq<Device>)
    ensures |rest| <= |ds|
    decreases |ds|
  {
    if ds == [] then []
    else if Related(r, cur, ds[0]) then Others(r, Winner(r, cur, ds[0]), ds[1..])
    else [ds[0]] + Others(r, cur, ds[1..])
  }

  function Dedup(r: Rules, ds: seq<Device>): seq<Device>
    decreases |ds|
  {
    if ds == [] then [] else [Champion(r, ds[0], ds[1..])] + Dedup(r, Others(r, ds[0], ds[1..]))
  }

  /** The inner loop at j: the devices before it are settled for now, those from it on are still input[k..]. */
  ghost predicate Underway(r: Rules, input: seq<Device>, i: nat, devices: seq<Device>, j: nat, k: nat) {
    && i < |input| && i < j <= |devices| && k <= |input|
    && devices[..i] == input[..i] && devices[j..] == input[k..]
    && Champion(r, input[i], input[i + 1..]) == Champion(r, devices[i], input[k..])
    && Others(r, input[i], input[i + 1..]) == devices[i + 1..j] + Others(r, devices[i], input[k..])
  }

  function Deleted(devices: seq<Device>, j: nat): seq<Device>
    requires j < |devices|
  {
    devices[..j] + devices[j + 1..]
  }

  lemma StartUnderway(r: Rules, input: seq<Device>, i: nat)
    requires i < |input|
    ensures Underway(r, input, i, input, i + 1, i + 1)
  {
    hide Champion, Others;
    assert input[i + 1..i + 1] == [];
  }

  lemma InnerStep(r: Rules, cur: Device, ds: seq<Device>)
    requires ds != []
    ensures Champion(r, cur, ds) == Champion(r, if Related(r, cur, ds[0]) then Winner(r, cur, ds[0]) else cur, ds[1..])
    ensures Others(r, cur, ds) ==
              if Related(r, cur, ds[0]) then Others(r, Winner(r, cur, ds[0]), ds[1..])
              else [ds[0]] + Others(r, cur, ds[1..])
  {
    hide Related, Winner;
  }

  /** The next device, and what the inner loop makes of the rest once it is dealt with. */
  lemma UnderwayStep(r: Rules, input: seq<Device>, i: nat, devices: seq<Device>, j: nat, k: nat)
    requires Underway(r, input, i, devices, j, k) && j < |devices|
    ensures k < |input| && devices[j] == input[k]
    ensures var cur := devices[i]; var next := if Related(r, cur, devices[j]) then Winner(r, cur, devices[j]) else cur;
            && Champion(r, cur, input[k..]) == Champion(r, next, input[k + 1..])
            && Others(r, cur, input[k..]) ==
                 (if Related(r, cur, devices[j]) then [] else [devices[j]]) + Others(r, next, input[k + 1..])
  {
    hide Champion, Others, Related, Winner;
    assert devices[j..][0] == devices[j] && input[k..][0] == input[k] && input[k..][1..] == input[k + 1..];
    InnerStep(r, devices[i], input[k..]);
  }

  lemma UnderwayPass(r: Rules, input: seq<Device>, i: nat, devices: seq<Device>, j: nat, k: nat)
    requires Underway(r, input, i, devices, j, k) && j < |devices| && !Related(r, devices[i], devices[j])
    ensures Underway(r, input, i, devices, j + 1, k + 1)
  {
    UnderwayStep(r, input, i, devices, j, k);
    hide Champion, Others, Related, Winner;
    assert devices[j + 1..] == devices[j..][1..] && input[k + 1..] == input[k..][1..];
    assert devices[i + 1..j + 1] == devices[i + 1..j] + [devices[j]];
  }

  lemma UnderwayDrop(r: Rules, input: seq<Device>, i: nat, devices: seq<Device>, j: nat, k: nat)
    requires Underway(r, input, i, devices, j, k) && j < |devices| && Related(r, devices[i], devices[j])
    ensures Underway(r, input, i, Deleted(devices[i := Winner(r, devices[i], devices[j])], j), j, k + 1)
  {
    UnderwayStep(r, input, i, devices, j, k);
    hide Champion, Others, Related, Winner;
    var next := Deleted(devices[i := Winner(r, devices[i], devices[j])], j);
    assert next[j..] == devices[j..][1..] && input[k + 1..] == input[k..][1..];
    assert next[i + 1..j] == devices[i + 1..j] && next[..i] == devices[..i];
  }

  lemma InnerEnd(r: Rules, cur: Device)
    ensures Champion(r, cur, []) == cur && Others(r, cur, []) == []
  {}

  lemma UnderwayEnd(r: Rules, input: seq<Device>, i: nat, devices: seq<Device>, k: nat)
    requires Underway(r, input, i, devices, |devices|, k)
    ensures devices == input[..i] + [Champion(r, input[i], input[i + 1..])] + Others(r, input[i], input[i + 1..])
  {
    hide Champion, Others;
    assert input[k..] == [] && devices[i + 1..|devices|] == devices[i + 1..];
    InnerEnd(r, devices[i]);
    assert devices == devices[..i] + [devices[i]] + devices[i + 1..];
  }

  lemma RelatedIs(r: Rules, a: Device, b: Device)
    ensures Related(r, a, b) <==> Compare(r, a, b) != UniqueDevice
    ensures Winner(r, a, b) == if Compare(r, a, b) == DuplicateDevice && !Preferred(a) then b else a
  {}

  method DropDuplicatesOf(r: Rules, input: seq<Device>, i: nat) returns (devices: seq<Device>)
    requires i < |input|
    ensures devices == input[..i] + [Champion(r, input[i], input[i + 1..])] + Others(r, input[i], input[i + 1..])
  {
    hide Compare, Winner, Related, Champion, Others, Underway;
    devices := input;
    var j: nat := i + 1;
    ghost var k: nat := i + 1;
    StartUnderway(r, input, i);
    while j < |devices|
      invariant i < j <= |devices| && Underway(r, input, i, devices, j, k)
      decreases |devices| - j
    {
      RelatedIs(r, devices[i], devices[j]);
      match Compare(r, devices[i], devices[j]) {
        case SameBackendDevice =>
          UnderwayDrop(r, input, i, devices, j, k);
          assert devices[i := devices[i]] == devices;
          devices := devices[..j] + devices[j + 1..];
        case DuplicateDevice =>
          UnderwayDrop(r, input, i, devices, j, k);
          if Preferred(devices[i]) {
            assert devices[i := devices[i]] == devices;
          } else {
            devices := devices[i := devices[j]];
          }
          devices := devices[..j] + devices[j + 1..];
        case UniqueDevice =>
          UnderwayPass(r, input, i, devices, j, k);
          j := j + 1;
      }
      k := k + 1;
    }
    UnderwayEnd(r, input, i, devices, k);
  }

  // ----- One device per class --------------------------------------------------------------------------

  ghost predicate Equivalence(r: Rules, ds: seq<Device>) {
    && (forall a :: a in ds ==> Related(r, a, a))
    && (forall a, b :: a in ds && b in ds && Related(r, a, b) ==> Related(r, b, a))
    && (forall a, b, c :: a in ds && b in ds && c in ds && Related(r, a, b) && Related(r, b, c) ==> Related(r, a, c))
  }

  ghost predicate Apart(r: Rules, ds: seq<Device>) {
    forall i, j :: 0 <= i < j < |ds| ==> !Related(r, ds[i], ds[j])
  }

  /** Each device of ds is related to one that is kept. */
  ghost predicate Covers(r: Rules, kept: seq<Device>, ds: seq<Device>) {
    forall d :: d in ds ==> exists e :: e in kept && Related(r, d, e)
  }

  /** The survivors come from ds, are pairwise unrelated, and each device of ds is related to one. */
  ghost predicate OnePerClass(r: Rules, ds: seq<Device>, kept: seq<Device>) {
    (forall d :: d in kept ==> d in ds) && Apart(r, kept) && Covers(r, kept, ds)
  }

  lemma CompareSymmetric(r: Rules, a: Device, b: Device)
    ensures Compare(r, a, b) == Compare(r, b, a) && Related(r, a, a)
    ensures Compare(r, a, b) == SameBackendDevice ==> a.library == b.library
  {}

  /** Where the inner loop's results come from. */
  lemma {:induction false} InnerFrom(r: Rules, cur: Device, ds: seq<Device>)
    ensures Champion(r, cur, ds) == cur || Champion(r, cur, ds) in ds
    ensures forall d :: d in Others(r, cur, ds) ==> d in ds
    decreases |ds|
  {
    if ds != [] {
      InnerStep(r, cur, ds);
      hide Champion, Others, Related, Compare;
      assert ds[0] in ds && forall d :: d in ds[1..] ==> d in ds;
      InnerFrom(r, if Related(r, cur, ds[0]) then Winner(r, cur, ds[0]) else cur, ds[1..]);
    }
  }

  lemma {:induction false} DedupFrom(r: Rules, ds: seq<Device>)
    ensures forall d :: d in Dedup(r, ds) ==> d in ds
    decreases |ds|
  {
    if ds != [] {
      hide Champion, Others;
      assert ds[0] in ds && forall d :: d in ds[1..] ==> d in ds;
      InnerFrom(r, ds[0], ds[1..]);
      DedupFrom(r, Others(r, ds[0], ds[1..]));
    }
  }

  // ----- Exactly when the survivors are apart ---------------------------------------------------------

  /** The device in front gives way to w. */
  predicate Replaced(r: Rules, a: Device, w: Device) {
    Compare(r, a, w) == DuplicateDevice && !Preferred(a)
  }

  /** d was let pass for its difference from a, and is like the w that takes the place of a. */
  predicate SwapsIn(r: Rules, a: Device, d: Device, w: Device) {
    Replaced(r, a, w) && !Related(r, a, d) && Related(r, w, d)
  }

  ghost predicate Swapped(r: Rules, ds: seq<Device>) {
    exists a, d, w :: a in ds && d in ds && w in ds && SwapsIn(r, a, d, w)
  }

  /** What cur is not related to, its successors are not related to either. */
  lemma {:induction false} StaysApart(r: Rules, all: seq<Device>, cur: Device, ds: seq<Device>, d: Device)
    requires !Swapped(r, all) && cur in all && d in all && (forall x :: x in ds ==> x in all) && !Related(r, cur, d)
    ensures !Related(r, Champion(r, cur, ds), d)
    decreases |ds|
  {
    if ds != [] {
      InnerStep(r, cur, ds);
      RelatedIs(r, cur, ds[0]);
      hide Champion, Related, Compare;
      assert ds[0] in ds && forall x :: x in ds[1..] ==> x in ds;
      assert Replaced(r, cur, ds[0]) ==> !SwapsIn(r, cur, d, ds[0]);
      StaysApart(r, all, if Related(r, cur, ds[0]) then Winner(r, cur, ds[0]) else cur, ds[1..], d);
    }
  }

  lemma {:induction false} PassedAreApart(r: Rules, all: seq<Device>, cur: Device, ds: seq<Device>, d: Device)
    requires !Swapped(r, all) && cur in all && (forall x :: x in ds ==> x in all) && d in Others(r, cur, ds)
    ensures !Related(r, Champion(r, cur, ds), d)
    decreases |ds|
  {
    InnerStep(r, cur, ds);
    RelatedIs(r, cur, ds[0]);
    hide Champion, Others, Related, Compare;
    assert ds[0] in ds && forall x :: x in ds[1..] ==> x in ds;
    if Related(r, cur, ds[0]) {
      PassedAreApart(r, all, Winner(r, cur, ds[0]), ds[1..], d);
    } else if d == ds[0] {
      StaysApart(r, all, cur, ds[1..], d);
    } else {
      PassedAreApart(r, all, cur, ds[1..], d);
    }
  }

  lemma ApartInFront(r: Rules, w: Device, ds: seq<Device>)
    requires Apart(r, ds) && forall e :: e in ds ==> !Related(r, w, e)
    ensures Apart(r, [w] + ds)
  {
    hide Related;
  }

  lemma {:induction false} DedupApart(r: Rules, all: seq<Device>, ds: seq<Device>)
    requires !Swapped(r, all) && forall x :: x in ds ==> x in all
    ensures Apart(r, Dedup(r, ds))
    decreases |ds|
  {
    if ds != [] {
      hide Champion, Others, Related, Swapped, Apart;
      var cur, t := ds[0], ds[1..];
      assert cur in ds && forall x :: x in t ==> x in ds;
      InnerFrom(r, cur, t);
      var w, rest := Champion(r, cur, t), Others(r, cur, t);
      DedupFrom(r, rest);
      forall e | e in Dedup(r, rest) ensures !Related(r, w, e) {
        PassedAreApart(r, all, cur, t, e);
      }
      DedupApart(r, all, rest);
      ApartInFront(r, w, Dedup(r, rest));
    } else {
      assert Dedup(r, ds) == [];
    }
  }

  /** The list [a, d, w], from which a and w leave w, and d stays. */
  lemma SwapLeavesPair(r: Rules, a: Device, d: Device, w: Device)
    requires SwapsIn(r, a, d, w)
    ensures Dedup(r, [a, d, w]) == [w, d] && !Apart(r, [w, d])
  {
    RelatedIs(r, a, w);
    hide Compare, Related;
    assert [a, d, w][1..] == [d, w] && [d, w][1..] == [w] && [w][1..] == [] && [d][1..] == [];
    InnerStep(r, a, [d, w]);
    InnerStep(r, a, [w]);
    InnerEnd(r, w);
    InnerEnd(r, d);
    hide Champion, Others;
    assert Dedup(r, [d]) == [d];
    assert [w, d][0] == w && [w, d][1] == d;
  }

  /** However these devices are listed, the survivors are apart, exactly if nothing is swapped in. */
  lemma ApartExactly(r: Rules, ds: seq<Device>)
    ensures (forall ks :: (forall k :: k in ks ==> k in ds) ==> Apart(r, Dedup(r, ks))) <==> !Swapped(r, ds)
  {
    hide Dedup, Apart, SwapsIn;
    if Swapped(r, ds) {
      var a, d, w :| a in ds && d in ds && w in ds && SwapsIn(r, a, d, w);
      SwapLeavesPair(r, a, d, w);
      assert forall k :: k in [a, d, w] ==> k in ds;
    } else {
      forall ks | forall k :: k in ks ==> k in ds ensures Apart(r, Dedup(r, ks)) {
        DedupApart(r, ds, ks);
      }
    }
  }

  // ----- Exactly when every device is covered -------------------------------------------------------------

  /** d was dropped for its likeness to a, and differs from the w that takes the place of a. */
  predicate Strands(r: Rules, a: Device, d: Device, w: Device) {
    Replaced(r, a, w) && Related(r, d, a) && !Preferred(d) && !Related(r, d, w)
  }

  ghost predicate Stranded(r: Rules, ds: seq<Device>) {
    exists a, d, w :: a in ds && d in ds && w in ds && Strands(r, a, d, w)
  }

  /** What was dropped for cur is related to its successors. */
  lemma {:induction false} StaysCovered(r: Rules, all: seq<Device>, cur: Device, ds: seq<Device>, d: Device)
    requires !Stranded(r, all) && cur in all && d in all && forall x :: x in ds ==> x in all
    requires Related(r, d, cur) && (Preferred(d) ==> Preferred(cur))
    ensures Related(r, d, Champion(r, cur, ds))
    decreases |ds|
  {
    if ds != [] {
      InnerStep(r, cur, ds);
      RelatedIs(r, cur, ds[0]);
      hide Champion, Related, Compare, Preferred;
      assert ds[0] in ds && forall x :: x in ds[1..] ==> x in ds;
      assert Replaced(r, cur, ds[0]) ==> !Strands(r, cur, d, ds[0]);
      StaysCovered(r, all, if Related(r, cur, ds[0]) then Winner(r, cur, ds[0]) else cur, ds[1..], d);
    }
  }

  lemma {:induction false} DroppedAreCovered(r: Rules, all: seq<Device>, cur: Device, ds: seq<Device>, d: Device)
    requires !Stranded(r, all) && cur in all && (forall x :: x in ds ==> x in all) && d in ds
    ensures d in Others(r, cur, ds) || Related(r, d, Champion(r, cur, ds))
    decreases |ds|
  {
    InnerStep(r, cur, ds);
    RelatedIs(r, cur, ds[0]);
    CompareSymmetric(r, cur, ds[0]);
    CompareSymmetric(r, ds[0], ds[0]);
    RelatedIs(r, ds[0], cur);
    var next := if Related(r, cur, ds[0]) then Winner(r, cur, ds[0]) else cur;
    assert cur.library == ds[0].library ==> Preferred(cur) == Preferred(ds[0]);
    hide Champion, Others, Related, Compare, Preferred;
    assert ds[0] in ds && forall x :: x in ds[1..] ==> x in ds;
    if d in ds[1..] {
      DroppedAreCovered(r, all, next, ds[1..], d);
    } else if Related(r, cur, d) {
      StaysCovered(r, all, next, ds[1..], d);
    }
  }

  lemma {:induction false} DedupCovers(r: Rules, all: seq<Device>, ds: seq<Device>)
    requires !Stranded(r, all) && forall x :: x in ds ==> x in all
    ensures Covers(r, Dedup(r, ds), ds)
    decreases |ds|
  {
    if ds != [] {
      var cur, t := ds[0], ds[1..];
      CompareSymmetric(r, cur, cur);
      hide Champion, Others, Related, Stranded;
      assert cur in ds && forall x :: x in ds <==> x == cur || x in t;
      InnerFrom(r, cur, t);
      var w, rest := Champion(r, cur, t), Others(r, cur, t);
      DedupCovers(r, all, rest);
      var kept := Dedup(r, ds);
      assert kept == [w] + Dedup(r, rest) && w in kept && forall e :: e in Dedup(r, rest) ==> e in kept;
      forall d | d in ds ensures exists e :: e in kept && Related(r, d, e) {
        if d == cur {
          StaysCovered(r, all, cur, t, d);
        } else {
          DroppedAreCovered(r, all, cur, t, d);
        }
      }
    }
  }

  /** Three devices of which w alone is kept, and d is not like it. */
  lemma StrandLeavesOne(r: Rules, a: Device, d: Device, w: Device) returns (ks: seq<Device>)
    requires Strands(r, a, d, w)
    ensures ks == if Compare(r, d, a) == DuplicateDevice then [d, a, w] else [a, d, w]
    ensures Dedup(r, ks) == [w] && d in ks && !Covers(r, [w], ks)
  {
    RelatedIs(r, a, w);
    RelatedIs(r, a, d);
    RelatedIs(r, d, a);
    CompareSymmetric(r, a, d);
    var duplicate := Compare(r, d, a) == DuplicateDevice;
    var x, y := if duplicate then d else a, if duplicate then a else d;
    ks := [x, y, w];
    assert ks[0] == x && ks[1] == y && d in ks;
    hide Compare, Related, Preferred;
    assert ks[1..] == [y, w] && [y, w][1..] == [w] && [w][1..] == [];
    InnerStep(r, x, [y, w]);
    InnerStep(r, a, [w]);
    InnerEnd(r, w);
    hide Champion, Others;
    assert Dedup(r, []) == [];
  }

  /** However these devices are listed, each is like a survivor, exactly if none is stranded. */
  lemma CoveredExactly(r: Rules, ds: seq<Device>)
    ensures (forall ks :: (forall k :: k in ks ==> k in ds) ==> Covers(r, Dedup(r, ks), ks)) <==> !Stranded(r, ds)
  {
    hide Dedup, Covers, Strands;
    if Stranded(r, ds) {
      var a, d, w :| a in ds && d in ds && w in ds && Strands(r, a, d, w);
      var ks := StrandLeavesOne(r, a, d, w);
      assert forall k :: k in ks ==> k in ds;
    } else {
      forall ks | forall k :: k in ks ==> k in ds ensures Covers(r, Dedup(r, ks), ks) {
        DedupCovers(r, ds, ks);
      }
    }
  }

  lemma EquivalenceSuffices(r: Rules, ds: seq<Device>)
    requires Equivalence(r, ds)
    ensures !Swapped(r, ds) && !Stranded(r, ds)
  {
    forall a, d, w | a in ds && d in ds && w in ds ensures !SwapsIn(r, a, d, w) && !Strands(r, a, d, w) {
      RelatedIs(r, a, w);
      hide Compare, Related;
    }
  }

  /** One device per class, if being related is an equivalence. */
  lemma DedupOnePerClass(r: Rules, all: seq<Device>, ds: seq<Device>)
    requires Equivalence(r, all) && forall d :: d in ds ==> d in all
    ensures OnePerClass(r, ds, Dedup(r, ds))
  {
    hide Equivalence, Swapped, Stranded, Apart, Covers, Dedup;
    EquivalenceSuffices(r, all);
    DedupFrom(r, ds);
    DedupApart(r, all, ds);
    DedupCovers(r, all, ds);
  }

  /** The last loop of GPUDevices. */
  method DropDuplicates(r: Rules, input: seq<Device>) returns (devices: seq<Device>)
    ensures devices == Dedup(r, input)
    ensures Equivalence(r, input) ==> OnePerClass(r, input, devices)
  {
    hide Champion, Others, Equivalence, OnePerClass;
    if Equivalence(r, input) {
      DedupOnePerClass(r, input, input);
    }
    devices := input;
    var i := 0;
    while i < |devices|
      invariant i <= |devices|
      invariant Dedup(r, input) == devices[..i] + Dedup(r, devices[i..])
      decreases |devices| - i
    {
      ghost var before := devices;
      devices := DropDuplicatesOf(r, devices, i);
      assert before[i..][0] == before[i] && before[i..][1..] == before[i + 1..];
      i := i + 1;
      assert devices[..i] == before[..i - 1] + [Champion(r, before[i - 1], before[i..])];
      assert devices[i..] == Others(r, before[i - 1], before[i..]);
    }
    assert devices[..i] == devices && devices[i..] == [];
  }

  /** The inner loop takes the class of cur out of the list and keeps one device of it. */
  lemma {:induction false} ClassTaken(r: Rules, all: seq<Device>, cur: Device, ds: seq<Device>)
    requires Equivalence(r, all) && cur in all && forall d :: d in ds ==> d in all
    ensures var w, rest := Champion(r, cur, ds), Others(r, cur, ds);
            && (w == cur || w in ds) && w in all && Related(r, cur, w)
            && (forall d :: d in rest <==> d in ds && !Related(r, cur, d))
    decreases |ds|
  {
    if ds != [] {
      hide Compare, Related;
      InnerStep(r, cur, ds);
      hide Champion, Others;
      assert forall d :: d in ds[1..] ==> d in ds;
      assert ds[0] in ds;
      assert forall d :: d in ds ==> d == ds[0] || d in ds[1..];
      ClassTaken(r, all, if Related(r, cur, ds[0]) then Winner(r, cur, ds[0]) else cur, ds[1..]);
    }
  }

  /** Devices with PCI IDs are compared by them, and no two answers contradict each other. */
  lemma PciIdsDecide(r: Rules, ds: seq<Device>)
    requires forall d :: d in ds ==> d.pciId != ""
    ensures Equivalence(r, ds)
    ensures forall a, b :: a in ds && b in ds ==> (Related(r, a, b) <==> r.fold(a.pciId) == r.fold(b.pciId))
    ensures forall a, b :: a in ds && b in ds && Related(r, a, b) ==>
              Compare(r, a, b) == if a.library == b.library then SameBackendDevice else DuplicateDevice
  {}

  /** A Vulkan device and a CUDA or ROCm device with the same description and about as much memory. */
  predicate Twins(r: Rules, vulkan: Device, other: Device) {
    && vulkan.library == "Vulkan" && (other.library == "CUDA" || other.library == "ROCm")
    && r.normal(vulkan.description) == r.normal(other.description) != "" && r.similar(vulkan.memory, other.memory)
  }

  /**
   Where a PCI ID is missing, a Vulkan twin is a duplicate; besides it only devices without PCI IDs that
   share library and ID are related.
   */
  lemma TwinsDecide(r: Rules, a: Device, b: Device)
    requires a.pciId == "" || b.pciId == ""
    ensures Compare(r, a, b) == DuplicateDevice <==> Twins(r, a, b) || Twins(r, b, a)
    ensures Compare(r, a, b) == SameBackendDevice <==>
              a.pciId == b.pciId && a.library == b.library && a.id == b.id
  {
    assert |"Vulkan"| != |"CUDA"| && |"Vulkan"| != |"ROCm"|;
  }

  // ----- Which device is kept -----------------------------------------------------------------------------

  ghost predicate SomePreferred(r: Rules, ds: seq<Device>, d: Device) {
    exists e :: e in ds && Related(r, d, e) && Preferred(e)
  }

  /** The device in front is kept unless a duplicate of another library comes and it is not preferred itself. */
  lemma {:induction false} FrontStays(r: Rules, cur: Device, ds: seq<Device>)
    ensures Preferred(cur) || (forall d :: d in ds ==> Compare(r, cur, d) != DuplicateDevice) ==>
              Champion(r, cur, ds) == cur
    decreases |ds|
  {
    if ds != [] {
      InnerStep(r, cur, ds);
      RelatedIs(r, cur, ds[0]);
      hide Champion, Related, Compare;
      assert ds[0] in ds && forall d :: d in ds[1..] ==> d in ds;
      FrontStays(r, cur, ds[1..]);
    }
  }

  /** Otherwise the first such duplicate takes its place. */
  lemma {:induction false} FirstDuplicateTakesOver(r: Rules, cur: Device, ds: seq<Device>, i: nat)
    requires i < |ds| && !Preferred(cur) && Compare(r, cur, ds[i]) == DuplicateDevice
    requires forall j :: 0 <= j < i ==> Compare(r, cur, ds[j]) != DuplicateDevice
    ensures Champion(r, cur, ds) == Champion(r, ds[i], ds[i + 1..])
    decreases i
  {
    InnerStep(r, cur, ds);
    RelatedIs(r, cur, ds[0]);
    hide Champion, Related, Compare;
    if i > 0 {
      FirstDuplicateTakesOver(r, cur, ds[1..], i - 1);
      assert ds[1..][i..] == ds[i + 1..];
    }
  }

  lemma WinnerPrefers(r: Rules, a: Device, b: Device)
    requires Related(r, a, b)
    ensures Preferred(Winner(r, a, b)) <==> Preferred(a) || Preferred(b)
    ensures Winner(r, a, b) == a || Winner(r, a, b) == b
  {}

  lemma {:induction false} ChampionPrefers(r: Rules, all: seq<Device>, cur: Device, ds: seq<Device>)
    requires Equivalence(r, all) && cur in all && forall d :: d in ds ==> d in all
    ensures Preferred(Champion(r, cur, ds)) <==> Preferred(cur) || SomePreferred(r, ds, cur)
    decreases |ds|
  {
    if ds != [] {
      hide Compare, Related, Winner, Preferred;
      var d, t := ds[0], ds[1..];
      InnerStep(r, cur, ds);
      hide Champion;
      assert forall e :: e in ds <==> e == d || e in t;
      if Related(r, cur, d) {
        WinnerPrefers(r, cur, d);
        ChampionPrefers(r, all, Winner(r, cur, d), t);
        assert forall e :: e in t ==> (Related(r, cur, e) <==> Related(r, d, e));
      } else {
        ChampionPrefers(r, all, cur, t);
      }
    }
  }

  /** A device of a preferred library is kept wherever its class has one. */
  lemma {:induction false} DedupPrefers(r: Rules, all: seq<Device>, ds: seq<Device>, k: Device)
    requires Equivalence(r, all) && (forall d :: d in ds ==> d in all) && k in Dedup(r, ds)
    ensures k in all && (Preferred(k) <==> SomePreferred(r, ds, k))
    decreases |ds|
  {
    hide Compare, Related, Champion, Others, Preferred;
    var cur, t := ds[0], ds[1..];
    assert cur in ds && forall d :: d in ds <==> d == cur || d in t;
    ClassTaken(r, all, cur, t);
    var w, rest := Champion(r, cur, t), Others(r, cur, t);
    if k == w {
      ChampionPrefers(r, all, cur, t);
      assert forall e :: e in ds ==> (Related(r, cur, e) <==> Related(r, w, e));
    } else {
      DedupPrefers(r, all, rest, k);
      DedupOnePerClass(r, all, rest);
      assert k in rest;
      assert forall e :: e in ds && Related(r, k, e) ==> e in rest;
    }
  }

  // ----- Inputs on which more than one is left ------------------------------------------------------------

  /** Nothing is folded, descriptions are normal, and only equal memory sizes are similar. */
  function Literally(): Rules {
    Rules(s => s, s => s, (m, n) => m == n)
  }

  function Gpu(id: string, library: string, pciId: string, description: string): Device {
    Device(id, library, "", pciId, description, 8)
  }

  /**
   A Vulkan device without a PCI ID can be likened to a CUDA device whose PCI ID another device
   shares.  Then two devices with one PCI ID are left.
   */
  lemma RelatedPairIsLeft()
    ensures var vulkan, cuda, rocm := Gpu("0", "Vulkan", "", "gpu"), Gpu("0", "CUDA", "01:00", "gpu"),
              Gpu("0", "ROCm", "01:00", "apu");
            Dedup(Literally(), [vulkan, rocm, cuda]) == [cuda, rocm]
              && Compare(Literally(), cuda, rocm) == DuplicateDevice
  {
    var vulkan, cuda, rocm := Gpu("0", "Vulkan", "", "gpu"), Gpu("0", "CUDA", "01:00", "gpu"),
      Gpu("0", "ROCm", "01:00", "apu");
    assert "apu"[0] != "gpu"[0];
    assert SwapsIn(Literally(), vulkan, rocm, cuda);
    SwapLeavesPair(Literally(), vulkan, rocm, cuda);
  }

  /** So are a CUDA device and the second of two Vulkan devices without PCI ID that are like it. */
  lemma SecondVulkanIsLeft()
    ensures var first, second, cuda := Gpu("0", "Vulkan", "", "gpu"), Gpu("1", "Vulkan", "", "gpu"),
              Gpu("0", "CUDA", "01:00", "gpu");
            Dedup(Literally(), [first, second, cuda]) == [cuda, second]
              && Compare(Literally(), cuda, second) == DuplicateDevice
  {
    var first, second, cuda := Gpu("0", "Vulkan", "", "gpu"), Gpu("1", "Vulkan", "", "gpu"),
      Gpu("0", "CUDA", "01:00", "gpu");
    assert "0"[0] != "1"[0];
    assert SwapsIn(Literally(), first, second, cuda);
    SwapLeavesPair(Literally(), first, second, cuda);
  }

  /**
   Two views of one Vulkan device, of which a CUDA device without PCI ID is like the first only:
   the CUDA device is all that is left.
   */
  lemma ViewIsStranded()
    ensures var a, d, cuda := Gpu("0", "Vulkan", "01:00", "gpu"), Gpu("1", "Vulkan", "01:00", "apu"),
              Gpu("0", "CUDA", "", "gpu");
            Dedup(Literally(), [a, d, cuda]) == [cuda] && Compare(Literally(), d, cuda) == UniqueDevice
  {
    var a, d, cuda := Gpu("0", "Vulkan", "01:00", "gpu"), Gpu("1", "Vulkan", "01:00", "apu"),
      Gpu("0", "CUDA", "", "gpu");
    assert "apu"[0] != "gpu"[0];
    assert Compare(Literally(), d, a) == SameBackendDevice && Strands(Literally(), a, d, cuda);
    var ks := StrandLeavesOne(Literally(), a, d, cuda);
  }
}
