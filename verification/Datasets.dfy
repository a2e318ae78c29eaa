/** Dataset resolution and mounting for training pods, on the values of the volume and mount lists. */
module Datasets {
  import opened JsonMerge
  import opened GpuFit

  datatype Pvc = Pvc(claim: string, subPath: string)

  datatype Dataset = Dataset(name: string, resource: string, version: string, mountPath: string, pvc: Option<Pvc>)

  datatype Volume = Volume(name: string, claim: Option<string>, readOnly: bool)

  datatype Mount = Mount(name: string, path: string, readOnly: bool, subPath: string)

  datatype Mounting = Mounting(volumes: seq<Volume>, mounts: seq<Mount>)

  /** The name a dataset's volume gets: a digest of the resource name. */
  type Naming = string -> string

  predicate HasVolume(volumes: seq<Volume>, name: string) {
    exists i | 0 <= i < |volumes| :: volumes[i].name == name
  }

  predicate HasPath(mounts: seq<Mount>, path: string) {
    exists i | 0 <= i < |mounts| :: mounts[i].path == path
  }

  function VolumeOf(d: Dataset, naming: Naming): Volume
    requires d.pvc.Some?
  {
    Volume(naming(d.resource), Some(d.pvc.value.claim), true)
  }

  function MountOf(d: Dataset, naming: Naming): Mount
    requires d.pvc.Some?
  {
    Mount(naming(d.resource), d.mountPath, true, d.pvc.value.subPath)
  }

  function Add(m: Mounting, d: Dataset, naming: Naming): Result<Mounting> {
    if d.pvc.None? then Ok(m)
    else if d.mountPath == "" then Err(MissingMountPath)
    else if HasPath(m.mounts, d.mountPath) then Err(MountPathClash)
    else
      Ok(Mounting(if HasVolume(m.volumes, naming(d.resource)) then m.volumes else m.volumes + [VolumeOf(d, naming)],
                  m.mounts + [MountOf(d, naming)]))
  }

  /** The list of datasets mounted one after the other; the first error ends it. */
  function Mounted(m: Mounting, ds: seq<Dataset>, naming: Naming): Result<Mounting> {
    if ds == [] then Ok(m)
    else
      match Mounted(m, ds[..|ds| - 1], naming)
      case Err(e) => Err(e)
      case Ok(before) => Add(before, ds[|ds| - 1], naming)
  }

  /** An error of a prefix is the error of the whole list. */
  lemma {:induction false} ErrorSticks(m: Mounting, ds: seq<Dataset>, k: nat, naming: Naming)
    requires k <= |ds| && Mounted(m, ds[..k], naming).Err?
    ensures Mounted(m, ds, naming) == Mounted(m, ds[..k], naming)
    decreases |ds|
  {
    if k < |ds| {
      assert ds[..|ds| - 1][..k] == ds[..k];
      ErrorSticks(m, ds[..|ds| - 1], k, naming);
    } else {
      assert ds[..k] == ds;
    }
  }

  // ---------------------------------------------------------------- what mounting promises

  /** The mounts the PVC datasets ask for, in order. */
  function Asked(ds: seq<Dataset>, naming: Naming): seq<Mount> {
    if ds == [] then []
    else
      var last, before := ds[|ds| - 1], Asked(ds[..|ds| - 1], naming);
      if last.pvc.Some? then before + [MountOf(last, naming)] else before
  }

  predicate DistinctPaths(mounts: seq<Mount>) {
    forall i, j | 0 <= i < j < |mounts| :: mounts[i].path != mounts[j].path
  }

  predicate DistinctNames(volumes: seq<Volume>) {
    forall i, j | 0 <= i < j < |volumes| :: volumes[i].name != volumes[j].name
  }

  /** User volumes and mounts survive as a prefix; each PVC dataset adds exactly one mount, in
      order; mount paths and volume names stay pairwise distinct. */
  lemma {:induction false} MountedKeeps(m: Mounting, ds: seq<Dataset>, naming: Naming)
    requires Mounted(m, ds, naming).Ok?
    ensures var r := Mounted(m, ds, naming).value;
            && m.volumes <= r.volumes && r.mounts == m.mounts + Asked(ds, naming)
            && (DistinctPaths(m.mounts) ==> DistinctPaths(r.mounts))
            && (DistinctNames(m.volumes) ==> DistinctNames(r.volumes))
    decreases |ds|
  {
    if ds != [] {
      MountedKeeps(m, ds[..|ds| - 1], naming);
    } else {
      assert m.mounts + [] == m.mounts;
    }
  }

  /** No two datasets of one name claim different storage, and no volume outside the list has a
      dataset's volume name. */
  predicate Coherent(m: Mounting, ds: seq<Dataset>, naming: Naming) {
    && (forall i, j | 0 <= i < |ds| && 0 <= j < |ds| && ds[i].pvc.Some? && ds[j].pvc.Some?
                  && naming(ds[i].resource) == naming(ds[j].resource) ::
          ds[i].pvc.value.claim == ds[j].pvc.value.claim)
    && (forall i | 0 <= i < |ds| :: !HasVolume(m.volumes, naming(ds[i].resource)))
  }

  /** The volumes named `name` exist and all claim `claim` for reading only. */
  predicate ResolvesTo(volumes: seq<Volume>, name: string, claim: string) {
    && HasVolume(volumes, name)
    && forall i | 0 <= i < |volumes| && volumes[i].name == name ::
       volumes[i].claim == Some(claim) && volumes[i].readOnly
  }

  /** Every volume past the user's is one of a dataset of the list. */
  predicate FromDatasets(volumes: seq<Volume>, n: nat, ds: seq<Dataset>, naming: Naming) {
    forall i | n <= i < |volumes| :: IsDatasetVolume(volumes[i], ds, naming)
  }

  predicate IsDatasetVolume(v: Volume, ds: seq<Dataset>, naming: Naming) {
    exists j | 0 <= j < |ds| :: ds[j].pvc.Some? && v == VolumeOf(ds[j], naming)
  }

  lemma {:induction false} VolumesFromDatasets(m: Mounting, ds: seq<Dataset>, naming: Naming)
    requires Mounted(m, ds, naming).Ok?
    ensures m.volumes <= Mounted(m, ds, naming).value.volumes
    ensures FromDatasets(Mounted(m, ds, naming).value.volumes, |m.volumes|, ds, naming)
    ensures forall j | 0 <= j < |ds| && ds[j].pvc.Some? ::
            HasVolume(Mounted(m, ds, naming).value.volumes, naming(ds[j].resource))
    decreases |ds|
  {
    if ds != [] {
      var init, last := ds[..|ds| - 1], ds[|ds| - 1];
      VolumesFromDatasets(m, init, naming);
      var before, after := Mounted(m, init, naming).value.volumes, Mounted(m, ds, naming).value.volumes;
      assert before <= after;
      forall i | |m.volumes| <= i < |after|
        ensures IsDatasetVolume(after[i], ds, naming)
      {
        if i < |before| {
          assert before[i] == after[i];
          var j :| 0 <= j < |init| && init[j].pvc.Some? && before[i] == VolumeOf(init[j], naming);
          assert ds[j] == init[j];
        } else {
          assert after[i] == VolumeOf(ds[|ds| - 1], naming);
        }
      }
      forall j | 0 <= j < |ds| && ds[j].pvc.Some? ensures HasVolume(after, naming(ds[j].resource)) {
        if j < |ds| - 1 {
          assert init[j] == ds[j];
          var i :| 0 <= i < |before| && before[i].name == naming(ds[j].resource);
          assert after[i].name == naming(ds[j].resource);
        } else if !HasVolume(before, naming(last.resource)) {
          assert after[|before|].name == naming(last.resource);
        }
      }
    }
  }

  /** Each PVC dataset is mounted at its path and sub-path, read-only, from a volume that resolves
      to its own claim, read-only, and that repeated references to the dataset share. */
  lemma MountsResolve(m: Mounting, ds: seq<Dataset>, naming: Naming, j: nat)
    requires Mounted(m, ds, naming).Ok? && Coherent(m, ds, naming) && j < |ds| && ds[j].pvc.Some?
    ensures ResolvesTo(Mounted(m, ds, naming).value.volumes, naming(ds[j].resource), ds[j].pvc.value.claim)
    ensures Mount(naming(ds[j].resource), ds[j].mountPath, true, ds[j].pvc.value.subPath)
            in Mounted(m, ds, naming).value.mounts
  {
    var after, name := Mounted(m, ds, naming).value.volumes, naming(ds[j].resource);
    VolumesFromDatasets(m, ds, naming);
    assert !HasVolume(m.volumes, name);
    assert forall i | 0 <= i < |m.volumes| :: after[i] == m.volumes[i];
    forall i | 0 <= i < |after| && after[i].name == name
      ensures after[i].claim == Some(ds[j].pvc.value.claim) && after[i].readOnly
    {
      if i >= |m.volumes| {
        assert IsDatasetVolume(after[i], ds, naming);
        var k :| 0 <= k < |ds| && ds[k].pvc.Some? && after[i] == VolumeOf(ds[k], naming);
        assert naming(ds[k].resource) == naming(ds[j].resource);
      }
    }
    MountedKeeps(m, ds, naming);
    AskedHas(ds, naming, j);
  }

  lemma {:induction false} AskedHas(ds: seq<Dataset>, naming: Naming, j: nat)
    requires j < |ds| && ds[j].pvc.Some?
    ensures MountOf(ds[j], naming) in Asked(ds, naming)
    decreases |ds|
  {
    if j < |ds| - 1 {
      AskedHas(ds[..|ds| - 1], naming, j);
    }
  }

  /** The path of PVC dataset `j` is missing, taken by the user, or taken by an earlier one. */
  predicate Clashes(m: Mounting, ds: seq<Dataset>, j: nat)
    requires j < |ds|
  {
    ds[j].pvc.Some? &&
    (ds[j].mountPath == "" || HasPath(m.mounts, ds[j].mountPath)
     || exists i | 0 <= i < j :: ds[i].pvc.Some? && ds[i].mountPath == ds[j].mountPath)
  }

  lemma {:induction false} AskedPaths(ds: seq<Dataset>, naming: Naming, path: string)
    ensures HasPath(Asked(ds, naming), path) <==> exists i | 0 <= i < |ds| :: ds[i].pvc.Some? && ds[i].mountPath == path
    decreases |ds|
  {
    if ds != [] {
      var init, last := ds[..|ds| - 1], ds[|ds| - 1];
      AskedPaths(init, naming, path);
      var before, after := Asked(init, naming), Asked(ds, naming);
      if HasPath(after, path) {
        var i :| 0 <= i < |after| && after[i].path == path;
        if i < |before| {
          assert before[i].path == path;
          var k :| 0 <= k < |init| && init[k].pvc.Some? && init[k].mountPath == path;
          assert ds[k] == init[k];
        }
      }
      if k :| 0 <= k < |ds| && ds[k].pvc.Some? && ds[k].mountPath == path {
        if k < |ds| - 1 {
          assert init[k] == ds[k];
          var i :| 0 <= i < |before| && before[i].path == path;
          assert after[i].path == path;
        } else {
          assert after[|before|].path == path;
        }
      }
    }
  }

  lemma HasPathConcat(a: seq<Mount>, b: seq<Mount>, path: string)
    ensures HasPath(a + b, path) <==> HasPath(a, path) || HasPath(b, path)
  {
    if HasPath(a, path) {
      var i :| 0 <= i < |a| && a[i].path == path;
      assert (a + b)[i].path == path;
    }
    if HasPath(b, path) {
      var i :| 0 <= i < |b| && b[i].path == path;
      assert (a + b)[|a| + i].path == path;
    }
  }

  /** Mounting raises if and only if some PVC dataset has no path or a path already taken. */
  lemma {:induction false} MountingRaisesIff(m: Mounting, ds: seq<Dataset>, naming: Naming)
    ensures Mounted(m, ds, naming).Err? <==> exists j | 0 <= j < |ds| :: Clashes(m, ds, j)
    decreases |ds|
  {
    if ds != [] {
      var init, n := ds[..|ds| - 1], |ds| - 1;
      MountingRaisesIff(m, init, naming);
      assert forall j | 0 <= j < n :: Clashes(m, init, j) <==> Clashes(m, ds, j);
      if Mounted(m, init, naming).Ok? {
        MountedKeeps(m, init, naming);
        HasPathConcat(m.mounts, Asked(init, naming), ds[n].mountPath);
        AskedPaths(init, naming, ds[n].mountPath);
        assert forall i | 0 <= i < n :: init[i] == ds[i];
        assert Mounted(m, ds, naming).Err? <==> Clashes(m, ds, n);
      }
    }
  }

  // ---------------------------------------------------------------- resolving references

  datatype Reference = Reference(name: string, resource: string, expectedVersion: string, mountPath: string)

  datatype DatasetSpec = DatasetSpec(version: string, allowed: seq<string>, pvc: Option<Pvc>)

  /** Why a reference is refused. */
  datatype Refusal = NotFound(resource: string) | WrongVersion(resource: string) | NotAllowed(resource: string)

  datatype Resolution = Resolved(datasets: seq<Dataset>) | Refused(why: Refusal)

  function RefusalOf(r: Reference, specs: map<string, DatasetSpec>, account: string): Option<Refusal> {
    if r.resource !in specs then Some(NotFound(r.resource))
    else if specs[r.resource].version != r.expectedVersion then Some(WrongVersion(r.resource))
    else if specs[r.resource].allowed != [] && account !in specs[r.resource].allowed then Some(NotAllowed(r.resource))
    else None
  }

  /** The loop over the references. Every dataset that is reached has the expected version and an
      account it allows, and the refusal is that of the first reference refused. */
  method Resolve(refs: seq<Reference>, specs: map<string, DatasetSpec>, account: string) returns (r: Resolution)
    ensures r.Resolved? <==> forall i | 0 <= i < |refs| :: RefusalOf(refs[i], specs, account).None?
    ensures r.Resolved? ==> |r.datasets| == |refs|
    ensures r.Resolved? ==> forall i | 0 <= i < |refs| ::
              && refs[i].resource in specs && var spec := specs[refs[i].resource];
              && r.datasets[i]
                 == Dataset(refs[i].name, refs[i].resource, refs[i].expectedVersion, refs[i].mountPath, spec.pvc)
              && spec.version == refs[i].expectedVersion && (spec.allowed == [] || account in spec.allowed)
    ensures r.Refused? ==> exists i | 0 <= i < |refs| ::
              && RefusalOf(refs[i], specs, account) == Some(r.why)
              && forall j | 0 <= j < i :: RefusalOf(refs[j], specs, account).None?
  {
    var resolved := [];
    for i := 0 to |refs|
      invariant |resolved| == i && forall j | 0 <= j < i :: RefusalOf(refs[j], specs, account).None?
      invariant forall j | 0 <= j < i ::
        resolved[j] == Dataset(refs[j].name, refs[j].resource, specs[refs[j].resource].version, refs[j].mountPath,
                               specs[refs[j].resource].pvc)
    {
      var ref := refs[i];
      if ref.resource !in specs {
        assert RefusalOf(refs[i], specs, account) == Some(NotFound(ref.resource));
        return Refused(NotFound(ref.resource));
      }
      var spec := specs[ref.resource];
      if spec.version != ref.expectedVersion {
        assert RefusalOf(refs[i], specs, account) == Some(WrongVersion(ref.resource));
        return Refused(WrongVersion(ref.resource));
      }
      if spec.allowed != [] && account !in spec.allowed {
        assert RefusalOf(refs[i], specs, account) == Some(NotAllowed(ref.resource));
        return Refused(NotAllowed(ref.resource));
      }
      resolved := resolved + [Dataset(ref.name, ref.resource, spec.version, ref.mountPath, spec.pvc)];
    }
    r := Resolved(resolved);
  }
}
