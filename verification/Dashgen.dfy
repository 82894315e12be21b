/** dashgen: writing generated files through a temporary file and a rename, and validating them. */
module Dashgen {
  import opened Vocabulary

  type Bytes = seq<bv8>

  type Files = map<string, Bytes>

  /** One generated file; content fails when it cannot be marshalled. */
  datatype Spec = Spec(target: string, content: Result<Bytes, string>)

  datatype Mode = ModeWrite | ModeValidate | ModeOther(code: int)

  datatype Outcome = Done | DriftDetected(drifted: seq<string>) | Failed(cause: string)

  function Tmp(target: string): string {
    target + ".tmp"
  }

  function Want(spec: Spec): Bytes {
    if spec.content.Success? then spec.content.value else []
  }

  ghost predicate SameExcept(a: Files, b: Files, path: string) {
    a - {path} == b - {path}
  }

  // ---- the disk ----

  datatype ReadResult = Content(data: Bytes) | NotExist | ReadError

  /** A disk whose operations may fail at any moment; history holds every state it has passed through. */
  class Disk {
    var files: Files
    ghost var history: seq<Files>
    ghost var failed: bool // an operation has failed

    ghost predicate Valid()
      reads this
    {
      history != [] && history[|history| - 1] == files
    }

    constructor (files: Files)
      ensures Valid() && this.files == files && history == [files] && !failed
    {
      this.files := files;
      history, failed := [files], false;
    }

    method Set(files: Files)
      modifies this`files, this`history
      ensures this.files == files && history == old(history) + [files]
    {
      this.files := files;
      history := history + [files];
    }

    method MkdirAll(dir: string) returns (ok: bool)
      modifies this`failed
      ensures failed == (old(failed) || !ok)
    {
      ok := *;
      failed := failed || !ok;
    }

    /** os.WriteFile: truncates, then writes in pieces, and may stop after any of them. */
    method WriteFile(path: string, data: Bytes) returns (ok: bool)
      requires Valid()
      modifies this
      ensures Valid() && old(history) <= history
      ensures forall i :: |old(history)| <= i < |history| ==> SameExcept(history[i], old(files), path)
      ensures SameExcept(files, old(files), path)
      ensures ok ==> files == old(files)[path := data]
      ensures failed == (old(failed) || !ok)
    {
      ok := *;
      if !ok {
        failed := true;
        return;
      }
      Set(files[path := []]);
      var written := 0;
      while written < |data|
        invariant 0 <= written <= |data| && Valid() && old(history) <= history
        invariant files == old(files)[path := data[..written]] && failed == old(failed) && ok
        invariant forall i :: |old(history)| <= i < |history| ==> SameExcept(history[i], old(files), path)
      {
        ok := *;
        if !ok {
          failed := true;
          return;
        }
        var more: nat :| written < more <= |data|;
        Set(files[path := data[..more]]);
        written := more;
      }
      assert data[..|data|] == data;
    }

    /** os.Rename is atomic: it moves the whole file or changes nothing. */
    method Rename(path: string, target: string) returns (ok: bool)
      requires Valid() && path != target
      modifies this
      ensures Valid()
      ensures ok ==> path in old(files) && files == (old(files) - {path})[target := old(files)[path]]
      ensures ok ==> history == old(history) + [files]
      ensures !ok ==> files == old(files) && history == old(history)
      ensures failed == (old(failed) || !ok)
    {
      ok := *;
      if !ok || path !in files {
        failed := true;
        return false;
      }
      Set((files - {path})[target := files[path]]);
    }

    method ReadFile(path: string) returns (r: ReadResult)
      modifies this`failed
      ensures failed == (old(failed) || r.ReadError?)
      ensures r.Content? ==> path in files && r.data == files[path]
      ensures r.NotExist? ==> path !in files
    {
      var ok: bool := *;
      if !ok {
        failed := true;
        return ReadError;
      }
      r := if path in files then Content(files[path]) else NotExist;
    }
  }

  // ---- writing and validating ----

  /** The files once a spec has been written: its content in place, its temporary file gone. */
  function Written(files: Files, spec: Spec): Files {
    (files - {Tmp(spec.target)})[spec.target := Want(spec)]
  }

  function After(files: Files, specs: seq<Spec>): Files {
    if specs == [] then files
    else Written(After(files, specs[..|specs| - 1]), specs[|specs| - 1])
  }

  /** A state between two moments of a write: k specs are written and at most the next temporary file differs. */
  ghost predicate MidWriteAt(specs: seq<Spec>, before: Files, state: Files, k: nat) {
    && k <= |specs|
    && (if k == |specs| then state == After(before, specs)
        else SameExcept(state, After(before, specs[..k]), Tmp(specs[k].target)))
  }

  ghost predicate MidWrite(specs: seq<Spec>, before: Files, state: Files) {
    exists k: nat :: MidWriteAt(specs, before, state, k)
  }

  /** Every state from position lo on is between two moments of a write. */
  ghost predicate AllMidWrite(history: seq<Files>, lo: nat, specs: seq<Spec>, before: Files) {
    forall i :: lo <= i < |history| ==> MidWrite(specs, before, history[i])
  }

  /** Every state from position lo on differs from before in the temporary file, or has the spec written. */
  ghost predicate OneWrite(history: seq<Files>, lo: nat, spec: Spec, before: Files) {
    forall i :: lo <= i < |history| ==>
      SameExcept(history[i], before, Tmp(spec.target)) || history[i] == Written(before, spec)
  }

  method WriteAtomic(target: string, data: Bytes, disk: Disk) returns (ok: bool)
    requires disk.Valid()
    modifies disk
    ensures disk.Valid() && old(disk.history) <= disk.history
    ensures disk.failed == (old(disk.failed) || !ok)
    ensures ok ==> disk.files == (old(disk.files) - {Tmp(target)})[target := data]
    ensures !ok ==> SameExcept(disk.files, old(disk.files), Tmp(target))
    ensures forall i :: |old(disk.history)| <= i < |disk.history| ==>
      SameExcept(disk.history[i], old(disk.files), Tmp(target)) || (ok && disk.history[i] == disk.files)
  {
    ok := disk.MkdirAll(target);
    if !ok {
      return;
    }
    var tmp := target + ".tmp";
    assert tmp == Tmp(target) && |tmp| > |target|;
    ok := disk.WriteFile(tmp, data);
    if !ok {
      return;
    }
    ok := disk.Rename(tmp, target);
    assert ok ==> disk.files == (old(disk.files) - {tmp})[target := data];
  }

  /** The report line of a spec that does not match the disk. */
  function Drift(files: Files, spec: Spec): seq<string> {
    if spec.target !in files then [spec.target + " (missing)"]
    else if files[spec.target] != Want(spec) then [spec.target]
    else []
  }

  function DriftOf(files: Files, specs: seq<Spec>): seq<string> {
    if specs == [] then []
    else DriftOf(files, specs[..|specs| - 1]) + Drift(files, specs[|specs| - 1])
  }

  ghost predicate Marshalled(specs: seq<Spec>) {
    forall i :: 0 <= i < |specs| ==> specs[i].content.Success?
  }

  /** Writes one file, or compares it and adds to the drifted list. */
  method WriteOrCompare(spec: Spec, want: Bytes, mode: Mode, drifted: seq<string>, disk: Disk)
    returns (error: Option<string>, more: seq<string>)
    requires disk.Valid() && spec.content == Success(want)
    modifies disk
    ensures disk.Valid() && old(disk.history) <= disk.history
    ensures disk.failed == (old(disk.failed) || (error.Some? && !mode.ModeOther?)) && (mode.ModeOther? ==> error.Some?)
    ensures !mode.ModeWrite? ==> disk.files == old(disk.files) && disk.history == old(disk.history)
    ensures mode.ModeWrite? && error.None? ==> disk.files == Written(old(disk.files), spec)
    ensures OneWrite(disk.history, |old(disk.history)|, spec, old(disk.files))
    ensures error.None? ==> more == if mode.ModeWrite? then drifted else drifted + Drift(disk.files, spec)
  {
    more := drifted;
    match mode
    case ModeWrite =>
      var ok := WriteAtomic(spec.target, want, disk);
      error := if ok then None else Some("write");
    case ModeValidate =>
      var got := disk.ReadFile(spec.target);
      match got {
        case NotExist => return None, drifted + [spec.target + " (missing)"];
        case ReadError => return Some("read"), drifted;
        case Content(data) =>
          if data != want {
            more := drifted + [spec.target];
          }
          return None, more;
      }
    case ModeOther(_) =>
      return Some("unknown mode"), drifted;
  }

  /** Dashboards and then rule files, as one list of specs. */
  method Generate(specs: seq<Spec>, mode: Mode, disk: Disk) returns (r: Outcome)
    requires disk.Valid()
    modifies disk
    ensures disk.Valid() && old(disk.history) <= disk.history
    ensures !mode.ModeWrite? ==> disk.files == old(disk.files) && disk.history == old(disk.history)
    ensures AllMidWrite(disk.history, |old(disk.history)|, specs, old(disk.files))
    ensures !old(disk.failed) ==>
      (r.Failed? <==> disk.failed || !Marshalled(specs) || (mode.ModeOther? && specs != []))
    ensures mode.ModeWrite? ==> !r.DriftDetected? && (r.Done? ==> disk.files == After(old(disk.files), specs))
    ensures mode.ModeValidate? && !r.Failed? ==>
      var drifted := DriftOf(disk.files, specs); r == if drifted == [] then Done else DriftDetected(drifted)
  {
    var drifted: seq<string> := [];
    ghost var before := disk.files;
    for i := 0 to |specs|
      invariant disk.Valid() && old(disk.history) <= disk.history
      invariant mode.ModeOther? ==> i == 0
      invariant !mode.ModeWrite? ==> disk.files == before && disk.history == old(disk.history)
      invariant mode.ModeWrite? ==> disk.files == After(before, specs[..i])
      invariant mode.ModeValidate? ==> drifted == DriftOf(before, specs[..i])
      invariant Marshalled(specs[..i]) && disk.failed == old(disk.failed)
      invariant AllMidWrite(disk.history, |old(disk.history)|, specs, before)
    {
      var spec := specs[i];
      NextSpec(specs, before, i);
      if spec.content.Failure? {
        assert !Marshalled(specs);
        return Failed(spec.content.error);
      }
      ghost var soFar := disk.history;
      var error;
      error, drifted := WriteOrCompare(spec, spec.content.value, mode, drifted, disk);
      if mode.ModeWrite? {
        OneWriteIsMid(soFar, disk.history, |old(disk.history)|, specs, before, i);
      }
      if error.Some? {
        return Failed(error.value);
      }
    }
    assert specs[..|specs|] == specs;
    if mode.ModeValidate? && |drifted| > 0 {
      return DriftDetected(drifted);
    }
    return Done;
  }

  lemma NextSpec(specs: seq<Spec>, before: Files, i: nat)
    requires i < |specs|
    ensures After(before, specs[..i + 1]) == Written(After(before, specs[..i]), specs[i])
    ensures DriftOf(before, specs[..i + 1]) == DriftOf(before, specs[..i]) + Drift(before, specs[i])
    ensures Marshalled(specs[..i + 1]) <==> Marshalled(specs[..i]) && specs[i].content.Success?
  {
    assert specs[..i + 1][..i] == specs[..i];
    assert specs[..i + 1] == specs[..i] + [specs[i]];
  }

  lemma OneWriteIsMid(
    soFar: seq<Files>, history: seq<Files>, lo: nat, specs: seq<Spec>, before: Files, i: nat)
    requires soFar <= history && AllMidWrite(soFar, lo, specs, before)
    requires i < |specs| && OneWrite(history, |soFar|, specs[i], After(before, specs[..i]))
    ensures AllMidWrite(history, lo, specs, before)
  {
    forall j | lo <= j < |history|
      ensures MidWrite(specs, before, history[j])
    {
      if j < |soFar| {
        assert history[j] == soFar[j];
      } else {
        WrittenIsMid(specs, before, i, history[j]);
      }
    }
  }

  lemma WrittenIsMid(specs: seq<Spec>, before: Files, i: nat, state: Files)
    requires i < |specs|
    requires SameExcept(state, After(before, specs[..i]), Tmp(specs[i].target))
          || state == Written(After(before, specs[..i]), specs[i])
    ensures MidWrite(specs, before, state)
  {
    assert specs[..i + 1][..i] == specs[..i];
    if i + 1 == |specs| {
      assert specs[..i + 1] == specs;
    }
    assert MidWriteAt(specs, before, state, i) || MidWriteAt(specs, before, state, i + 1);
  }

  // ---- what a path holds after a write ----

  predicate TouchesPath(spec: Spec, path: string) {
    spec.target == path || Tmp(spec.target) == path
  }

  /** The last spec from position lo on that writes or uses path, or |specs| if there is none. */
  function LastTouch(specs: seq<Spec>, path: string): (i: nat)
    ensures i <= |specs| && (i < |specs| ==> TouchesPath(specs[i], path))
    ensures forall j :: 0 <= j < |specs| && TouchesPath(specs[j], path) ==> i < |specs| && j <= i
  {
    if specs == [] then 0
    else
      var n := |specs| - 1;
      if TouchesPath(specs[n], path) then n
      else
        var i := LastTouch(specs[..n], path);
        assert forall j :: 0 <= j < n ==> specs[..n][j] == specs[j];
        if i < n then i else |specs|
  }

  function ContentAt(files: Files, path: string): Option<Bytes> {
    if path in files then Some(files[path]) else None
  }

  /** The last spec to touch a path decides what is there: its content, or nothing if it was its temporary name. */
  lemma {:induction false} AfterAt(files: Files, specs: seq<Spec>, path: string)
    ensures var i := LastTouch(specs, path);
      ContentAt(After(files, specs), path)
      == if i == |specs| then ContentAt(files, path)
         else if specs[i].target == path then Some(Want(specs[i])) else None
    decreases |specs|
  {
    if specs != [] {
      var n := |specs| - 1;
      AfterAt(files, specs[..n], path);
      if !TouchesPath(specs[n], path) {
        var i := LastTouch(specs[..n], path);
        assert LastTouch(specs, path) == if i < n then i else |specs|;
      }
    }
  }

  /** Targets differ from each other and from each other's temporary names. */
  ghost predicate Disjoint(specs: seq<Spec>) {
    forall i, j :: 0 <= i < j < |specs| ==>
      !TouchesPath(specs[i], specs[j].target) && !TouchesPath(specs[j], specs[i].target)
  }

  /**
   Crash safety: at every moment of a write, the first k targets hold their new content and all others
   what they held before; no target is ever absent or half written unless it was so at the start.
   */
  lemma CrashLeavesOldOrNew(specs: seq<Spec>, before: Files, state: Files, k: nat, i: nat)
    requires Disjoint(specs) && MidWriteAt(specs, before, state, k) && i < |specs|
    ensures ContentAt(state, specs[i].target)
         == if i < k then Some(Want(specs[i])) else ContentAt(before, specs[i].target)
  {
    var target := specs[i].target;
    AfterAt(before, specs[..k], target);
    TargetTouchedOnce(specs, k, i);
    assert specs[..|specs|] == specs;
    if k < |specs| {
      assert |Tmp(specs[k].target)| == |specs[k].target| + 4;
      assert target != Tmp(specs[k].target) by {
        if i < k {
          assert !TouchesPath(specs[k], target);
        } else if i > k {
          assert !TouchesPath(specs[k], target);
        }
      }
      assert ContentAt(state - {Tmp(specs[k].target)}, target)
          == ContentAt(After(before, specs[..k]) - {Tmp(specs[k].target)}, target);
    }
  }

  lemma TargetTouchedOnce(specs: seq<Spec>, k: nat, i: nat)
    requires Disjoint(specs) && k <= |specs| && i < |specs|
    ensures LastTouch(specs[..k], specs[i].target) == if i < k then i else k
  {
    if i < k {
      assert TouchesPath(specs[..k][i], specs[i].target);
    }
  }

  /** Paths that no spec touches are left alone, at every moment. */
  lemma OtherPathsUntouched(specs: seq<Spec>, before: Files, state: Files, path: string)
    requires MidWrite(specs, before, state)
    requires forall i :: 0 <= i < |specs| ==> !TouchesPath(specs[i], path)
    ensures ContentAt(state, path) == ContentAt(before, path)
  {
    var k: nat :| MidWriteAt(specs, before, state, k);
    AfterAt(before, specs[..k], path);
    if k < |specs| {
      assert !TouchesPath(specs[k], path);
      assert ContentAt(state - {Tmp(specs[k].target)}, path)
          == ContentAt(After(before, specs[..k]) - {Tmp(specs[k].target)}, path);
    } else {
      assert specs[..k] == specs;
    }
  }

  /** Writing again after a crash, wherever it struck, leaves the disk as one clean write would have. */
  lemma RewriteConverges(specs: seq<Spec>, before: Files, state: Files)
    requires MidWrite(specs, before, state)
    ensures After(state, specs) == After(before, specs)
  {
    forall path
      ensures ContentAt(After(state, specs), path) == ContentAt(After(before, specs), path)
    {
      AfterAt(state, specs, path);
      AfterAt(before, specs, path);
      if LastTouch(specs, path) == |specs| {
        OtherPathsUntouched(specs, before, state, path);
      }
    }
    SameContent(After(state, specs), After(before, specs));
  }

  lemma SameContent(a: Files, b: Files)
    requires forall path :: ContentAt(a, path) == ContentAt(b, path)
    ensures a == b
  {
    forall path
      ensures path in a <==> path in b
      ensures path in a ==> a[path] == b[path]
    {
      assert ContentAt(a, path) == ContentAt(b, path);
    }
  }

  // ---- write followed by validate ----

  function Differs(files: Files): Spec -> bool {
    (spec: Spec) => ContentAt(files, spec.target) != Some(Want(spec))
  }

  function Line(files: Files): Spec -> string {
    (spec: Spec) => if spec.target in files then spec.target else spec.target + " (missing)"
  }

  lemma DriftIsLine(files: Files, spec: Spec)
    ensures Drift(files, spec) == Map(Line(files), Filter(Differs(files), [spec]))
  {
    FilterOne(Differs(files), spec);
  }

  /** The report has one line, in registry order, for each spec whose target is missing or differs. */
  lemma {:induction false} ReportIsExact(files: Files, specs: seq<Spec>)
    ensures DriftOf(files, specs) == Map(Line(files), Filter(Differs(files), specs))
    decreases |specs|
  {
    if specs != [] {
      var init, last := specs[..|specs| - 1], [specs[|specs| - 1]];
      ReportIsExact(files, init);
      DriftIsLine(files, specs[|specs| - 1]);
      assert specs == init + last;
      FilterConcat(Differs(files), init, last);
      MapConcat(Line(files), Filter(Differs(files), init), Filter(Differs(files), last));
    }
  }

  lemma CleanIff(files: Files, specs: seq<Spec>)
    ensures DriftOf(files, specs) == []
       <==> forall i :: 0 <= i < |specs| ==> ContentAt(files, specs[i].target) == Some(Want(specs[i]))
  {
    ReportIsExact(files, specs);
    FilterAll(Differs(files), specs);
    FilterMembers(Differs(files), specs);
    var differing := Filter(Differs(files), specs);
    assert |DriftOf(files, specs)| == |differing|;
    if differing != [] {
      assert differing[0] in specs && Differs(files)(differing[0]);
    }
  }

  /** The last spec that touches a target writes what the target's own spec wants there. */
  ghost predicate Coherent(specs: seq<Spec>) {
    forall i :: 0 <= i < |specs| ==>
      var j := LastTouch(specs, specs[i].target);
      j < |specs| && specs[j].target == specs[i].target && Want(specs[j]) == Want(specs[i])
  }

  /** A completed write makes the next validation clean exactly if the specs are coherent. */
  lemma WriteThenValidateCleanIff(before: Files, specs: seq<Spec>)
    ensures DriftOf(After(before, specs), specs) == [] <==> Coherent(specs)
  {
    CleanIff(After(before, specs), specs);
    forall i | 0 <= i < |specs|
      ensures ContentAt(After(before, specs), specs[i].target) == Some(Want(specs[i]))
         <==> var j := LastTouch(specs, specs[i].target);
              j < |specs| && specs[j].target == specs[i].target && Want(specs[j]) == Want(specs[i])
    {
      AfterAt(before, specs, specs[i].target);
      assert TouchesPath(specs[i], specs[i].target);
    }
  }

  lemma DisjointIsCoherent(specs: seq<Spec>)
    requires Disjoint(specs)
    ensures Coherent(specs)
  {
    forall i | 0 <= i < |specs|
      ensures LastTouch(specs, specs[i].target) == i
    {
      TargetTouchedOnce(specs, |specs|, i);
      assert specs[..|specs|] == specs;
    }
  }

  /** The files the tool generates; joining the output directory to them puts one prefix before each. */
  const REGISTRY: seq<string> := [
    "dashboards/api-overview.json", "dashboards/worker-pools.json", "dashboards/ebay-quota.json",
    "dashboards/alerts.json", "rules/spt-alerts.yml"]

  lemma ShippedRegistryIsDisjoint(prefix: string, specs: seq<Spec>)
    requires |specs| == |REGISTRY|
    requires forall i :: 0 <= i < |specs| ==> specs[i].target == prefix + REGISTRY[i]
    ensures Disjoint(specs)
  {
    forall i, j | 0 <= i < |specs| && 0 <= j < |specs| && i != j
      ensures specs[i].target != specs[j].target && Tmp(specs[i].target) != specs[j].target
    {
      var a, b := REGISTRY[i], REGISTRY[j];
      assert specs[i].target[|prefix|..] == a && specs[j].target[|prefix|..] == b;
      assert Tmp(specs[i].target)[|Tmp(specs[i].target)| - 1] == 'p';
      assert specs[j].target[|specs[j].target| - 1] == b[|b| - 1];
      assert b[|b| - 1] == 'n' || b[|b| - 1] == 'l';
    }
  }
}
