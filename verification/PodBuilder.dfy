/** The pod builder in place: pod and container start out sharing the submitted body's lists and
    dictionaries, and the rewrites must change copies only. */
module PodBuilder {
  import opened JsonMerge
  import opened GpuFit
  import opened Placement
  import opened Datasets

  /** A GPU quantity as the builder reads it: not given, a whole number, or not one. */
  datatype Quantity = Unset | Reads(n: int) | Garbled

  datatype EnvVar = EnvVar(name: string, value: string)

  datatype ResourceValue = ResourceValue(request: Quantity, limit: Quantity, rest: Json)

  class Dict {
    var entries: map<string, string>

    constructor (entries: map<string, string>)
      ensures this.entries == entries
    {
      this.entries := entries;
    }
  }

  class ListOf<T> {
    var items: seq<T>

    constructor (items: seq<T>)
      ensures this.items == items
    {
      this.items := items;
    }
  }

  class Term {
    var expressions: seq<Requirement>
    var fields: seq<Requirement>

    constructor (expressions: seq<Requirement>, fields: seq<Requirement>)
      ensures this.expressions == expressions && this.fields == fields
    {
      this.expressions, this.fields := expressions, fields;
    }
  }

  class Affinity {
    var terms: Option<seq<Term>>
    var rest: Json

    constructor (terms: Option<seq<Term>>, rest: Json)
      ensures this.terms == terms && this.rest == rest
    {
      this.terms, this.rest := terms, rest;
    }
  }

  class Resources {
    var request: Quantity
    var limit: Quantity
    var rest: Json

    constructor (request: Quantity, limit: Quantity, rest: Json)
      ensures this.request == request && this.limit == limit && this.rest == rest
    {
      this.request, this.limit, this.rest := request, limit, rest;
    }
  }

  class Pod {
    var nodeSelector: Dict?
    var affinity: Affinity?
    var volumes: ListOf?<Volume>

    constructor (nodeSelector: Dict?, affinity: Affinity?, volumes: ListOf?<Volume>)
      ensures this.nodeSelector == nodeSelector && this.affinity == affinity && this.volumes == volumes
    {
      this.nodeSelector, this.affinity, this.volumes := nodeSelector, affinity, volumes;
    }
  }

  class Container {
    var resources: Resources?
    var env: ListOf?<EnvVar>
    var mounts: ListOf?<Mount>

    constructor (resources: Resources?, env: ListOf?<EnvVar>, mounts: ListOf?<Mount>)
      ensures this.resources == resources && this.env == env && this.mounts == mounts
    {
      this.resources, this.env, this.mounts := resources, env, mounts;
    }
  }

  /** The submitted specification, as far as the builder touches it. */
  class Body {
    var accelerator: Option<Accelerator>
    var nodeSelector: Dict?
    var affinity: Affinity?
    var volumes: ListOf?<Volume>
    var resources: Resources?
    var env: ListOf?<EnvVar>
    var mounts: ListOf?<Mount>

    constructor (accelerator: Option<Accelerator>, nodeSelector: Dict?, affinity: Affinity?, volumes: ListOf?<Volume>,
                 resources: Resources?, env: ListOf?<EnvVar>, mounts: ListOf?<Mount>)
      ensures this.accelerator == accelerator && this.nodeSelector == nodeSelector && this.affinity == affinity
      ensures this.volumes == volumes && this.resources == resources && this.env == env && this.mounts == mounts
    {
      this.accelerator, this.nodeSelector, this.affinity, this.volumes := accelerator, nodeSelector, affinity, volumes;
      this.resources, this.env, this.mounts := resources, env, mounts;
    }
  }

  // ---------------------------------------------------------------- values

  ghost function Members(a: Affinity?): set<object>
    reads a
  {
    if a != null && a.terms.Some? then set t | t in a.terms.value else {}
  }

  ghost function TermsV(ts: seq<Term>): seq<TermValue>
    reads ts
  {
    seq(|ts|, i requires 0 <= i < |ts| reads ts => TermValue(ts[i].expressions, ts[i].fields))
  }

  ghost function AffinityV(a: Affinity?): AffinityValue
    reads a, Members(a)
  {
    if a == null then AffinityValue(None, Null)
    else AffinityValue(if a.terms.Some? then Some(TermsV(a.terms.value)) else None, a.rest)
  }

  ghost function DictV(d: Dict?): map<string, string>
    reads d
  {
    if d == null then map[] else d.entries
  }

  ghost function ItemsV<T>(l: ListOf?<T>): seq<T>
    reads l
  {
    if l == null then [] else l.items
  }

  ghost function ResourcesV(r: Resources?): ResourceValue
    reads r
  {
    if r == null then ResourceValue(Unset, Unset, Null) else ResourceValue(r.request, r.limit, r.rest)
  }

  ghost function PodV(p: Pod): PodValue
    reads p, p.nodeSelector, p.affinity, Members(p.affinity)
  {
    PodValue(DictV(p.nodeSelector), AffinityV(p.affinity))
  }

  /** No two entries of the term list are one object: the list was decoded from text. */
  ghost predicate Separate(a: Affinity?)
    reads a
  {
    a != null && a.terms.Some? ==> forall i, j | 0 <= i < j < |a.terms.value| :: a.terms.value[i] != a.terms.value[j]
  }

  datatype BodyValue = BodyValue(
    accelerator: Option<Accelerator>, pod: PodValue, volumes: seq<Volume>, resources: ResourceValue,
    env: seq<EnvVar>, mounts: seq<Mount>)

  ghost function BodyV(b: Body): BodyValue
    reads b, b.nodeSelector, b.affinity, Members(b.affinity), b.volumes, b.resources, b.env, b.mounts
  {
    BodyValue(b.accelerator, PodValue(DictV(b.nodeSelector), AffinityV(b.affinity)), ItemsV(b.volumes),
              ResourcesV(b.resources), ItemsV(b.env), ItemsV(b.mounts))
  }

  // ---------------------------------------------------------------- affinity

  method CopyAffinity(a: Affinity?) returns (c: Affinity)
    ensures fresh(c) && fresh(Members(c)) && Separate(c) && AffinityV(c) == AffinityV(a)
  {
    if a == null {
      c := new Affinity(None, Null);
    } else if a.terms.None? {
      c := new Affinity(None, a.rest);
    } else {
      var ts := a.terms.value;
      var copies: seq<Term> := [];
      for i := 0 to |ts|
        invariant |copies| == i && fresh(set t | t in copies)
        invariant forall j, k | 0 <= j < k < i :: copies[j] != copies[k]
        invariant forall j | 0 <= j < i ::
                  copies[j].expressions == ts[j].expressions && copies[j].fields == ts[j].fields
      {
        var t := new Term(ts[i].expressions, ts[i].fields);
        copies := copies + [t];
      }
      c := new Affinity(Some(copies), a.rest);
      assert TermsV(copies) == TermsV(ts);
    }
  }

  /** Append the product expression to each term in place, unless one already names a product; the
      terms before that one have been changed by then. */
  method AppendProducts(terms: seq<Term>, products: seq<string>) returns (ok: bool)
    requires forall i, j | 0 <= i < j < |terms| :: terms[i] != terms[j]
    modifies terms
    ensures ok <==> forall i | 0 <= i < |terms| :: !NamesProduct(old(TermsV(terms))[i])
    ensures ok ==> TermsV(terms) == ProductTerms(old(TermsV(terms)), products)
  {
    ghost var start := TermsV(terms);
    var added := Requirement(PRODUCT_LABEL, In, products);
    for i := 0 to |terms|
      invariant forall j | 0 <= j < i ::
                terms[j].expressions == start[j].expressions + [added] && !NamesProduct(start[j])
      invariant forall j | i <= j < |terms| :: terms[j].expressions == start[j].expressions
      invariant forall j | 0 <= j < |terms| :: terms[j].fields == start[j].fields
    {
      var named := exists k | 0 <= k < |terms[i].expressions| :: terms[i].expressions[k].key == PRODUCT_LABEL;
      assert named <==> NamesProduct(start[i]);
      if named {
        return false;
      }
      terms[i].expressions := terms[i].expressions + [added];
    }
    assert TermsV(terms) == ProductTerms(start, products);
    ok := true;
  }

  /** A fresh copy of the affinity that has a list of terms: a missing one becomes one empty term. */
  method CopyToRewrite(a: Affinity?) returns (c: Affinity, terms: seq<Term>)
    ensures fresh(c) && c.terms == Some(terms) && c.rest == AffinityV(a).rest
    ensures (forall i | 0 <= i < |terms| :: fresh(terms[i]))
            && forall i, j | 0 <= i < j < |terms| :: terms[i] != terms[j]
    ensures TermsV(terms) == TermsToRewrite(AffinityV(a))
  {
    c := CopyAffinity(a);
    assert forall t | t in Members(c) :: fresh(t);
    if c.terms.None? {
      var empty := new Term([], []);
      terms := [empty];
      c.terms := Some(terms);
    } else {
      terms := c.terms.value;
      assert forall i | 0 <= i < |terms| :: terms[i] in Members(c);
    }
  }

  /** Restrict the pod to the listed products: `None` for a normal return, the error otherwise. The
      loop appends to the terms of a fresh copy, also when it raises half-way. */
  method ApplyGpuProductAffinity(pod: Pod, products: seq<string>) returns (error: Option<Problem>)
    modifies pod`affinity
    ensures error.Some? ==>
            WithProducts(old(PodV(pod)), products) == Err(error.value) && pod.affinity == old(pod.affinity)
    ensures error.None? ==> WithProducts(old(PodV(pod)), products) == Ok(PodV(pod))
  {
    if products == [] || "" in products {
      return Some(BadProducts);
    }
    var selector := if pod.nodeSelector == null then map[] else pod.nodeSelector.entries;
    var chosen := if PRODUCT_LABEL in selector then selector[PRODUCT_LABEL] else "";
    if chosen != "" {
      return if chosen in products then None else Some(ProductSelectorConflict);
    }
    var affinity, terms := CopyToRewrite(pod.affinity);
    ghost var start := TermsV(terms);
    var ok := AppendProducts(terms, products);
    if !ok {
      return Some(ProductAffinityConflict);
    }
    pod.affinity := affinity;
    assert AffinityV(affinity) == AffinityValue(Some(ProductTerms(start, products)), affinity.rest);
    return None;
  }

  // ---------------------------------------------------------------- accelerator

  datatype AcceleratedValue = AcceleratedValue(pod: PodValue, resources: ResourceValue, minimum: Option<int>)

  function WithGpus(r: ResourceValue, count: int): Result<ResourceValue> {
    match r.request
    case Garbled => Err(BadGpuRequest)
    case Unset => Ok(r.(request := Reads(count), limit := Reads(count)))
    case Reads(n) => if n != count then Err(GpuRequestConflict)
      else Ok(r.(request := Reads(count), limit := Reads(count)))
  }

  /** The whole accelerator step on values, with its errors in the order of the code. */
  function Accelerated(accelerator: Option<Accelerator>, pod: PodValue, resources: ResourceValue)
    : Result<AcceleratedValue> {
    if accelerator.None? then Ok(AcceleratedValue(pod, resources, None))
    else
      var a := accelerator.value;
      if !Usable(a) then (if PlanRefusal(a).Some? then Err(PlanRefusal(a).value) else Err(BadCount))
      else
        match Select(a)
        case Err(e) => Err(e)
        case Ok(class_) =>
          match WithGpus(resources, CountOf(a).value)
          case Err(e) => Err(e)
          case Ok(withGpus) =>
            match Placed(pod, ClassName(class_), a.products)
            case Err(e) => Err(e)
            case Ok(placed) => Ok(AcceleratedValue(placed, withGpus, RequiredGiB(a)))
  }

  /** The class the plan selects, found as the code finds it. */
  method SelectClass(a: Accelerator, minimum: Option<int>) returns (r: Result<GpuClass>)
    requires Usable(a) && minimum == RequiredGiB(a)
    ensures r == Select(a)
  {
    var wanted := if a.class_.Some? then a.class_.value else "auto";
    if wanted == "auto" {
      if minimum.None? {
        return Err(NeedsRequirement);
      }
      if a.fit.Some? {
        RequirementIsLeastCover(a);
      }
      r := SmallestClass(minimum.value);
    } else if ClassOfName(wanted).None? {
      r := Err(UnsupportedClass);
    } else if minimum.Some? && !Holds(ClassOfName(wanted).value, minimum.value) {
      r := Err(CannotFit);
    } else {
      r := Ok(ClassOfName(wanted).value);
    }
  }

  /** Ask for `count` GPUs on a copy of the container's resources. */
  method RequestGpus(container: Container, count: int) returns (error: Option<Problem>)
    modifies container`resources
    ensures match WithGpus(old(ResourcesV(container.resources)), count)
            case Err(e) => error == Some(e)
            case Ok(v) => error.None? && ResourcesV(container.resources) == v
  {
    var resources;
    if container.resources == null {
      resources := new Resources(Unset, Unset, Null);
    } else {
      resources := new Resources(container.resources.request, container.resources.limit, container.resources.rest);
    }
    if resources.request.Garbled? {
      return Some(BadGpuRequest);
    }
    if resources.request.Reads? && resources.request.n != count {
      return Some(GpuRequestConflict);
    }
    resources.request := Reads(count);
    resources.limit := Reads(count);
    container.resources := resources;
    return None;
  }

  /** Select the class, and the products if there are any, on copies of what the pod shares. */
  method SelectNodes(pod: Pod, name: string, products: Option<seq<string>>) returns (error: Option<Problem>)
    modifies pod`nodeSelector, pod`affinity
    ensures match Placed(old(PodV(pod)), name, products)
            case Err(e) => error == Some(e)
            case Ok(v) => error.None? && PodV(pod) == v
  {
    var nodeSelector := new Dict(if pod.nodeSelector == null then map[] else pod.nodeSelector.entries);
    if CLASS_LABEL in nodeSelector.entries && nodeSelector.entries[CLASS_LABEL] != name {
      return Some(ClassConflict);
    }
    nodeSelector.entries := nodeSelector.entries[CLASS_LABEL := name];
    pod.nodeSelector := nodeSelector;
    assert WithClass(old(PodV(pod)), name) == Ok(PodV(pod));
    if products.Some? {
      error := ApplyGpuProductAffinity(pod, products.value);
    } else {
      error := None;
    }
  }

  method ApplyAccelerator(accelerator: Option<Accelerator>, pod: Pod, container: Container)
    returns (r: Result<Option<int>>)
    modifies pod`nodeSelector, pod`affinity, container`resources
    ensures match Accelerated(accelerator, old(PodV(pod)), old(ResourcesV(container.resources)))
            case Err(e) => r == Err(e)
            case Ok(v) => r == Ok(v.minimum) && PodV(pod) == v.pod && ResourcesV(container.resources) == v.resources
  {
    if accelerator.None? {
      return Ok(None);
    }
    var a := accelerator.value;
    var minimum := GpuMemoryRequirement(a);
    if minimum.Err? {
      return Err(minimum.problem);
    }
    var selected := SelectClass(a, minimum.value);
    if selected.Err? {
      return Err(selected.problem);
    }
    var error := RequestGpus(container, CountOf(a).value);
    if error.Some? {
      return Err(error.value);
    }
    error := SelectNodes(pod, ClassName(selected.value), a.products);
    if error.Some? {
      return Err(error.value);
    }
    return Ok(minimum.value);
  }

  // ---------------------------------------------------------------- datasets

  const MANIFEST := "MODEL_FLEET_DATASETS_JSON"

  predicate Reserved(env: seq<EnvVar>) {
    exists i | 0 <= i < |env| :: env[i].name == MANIFEST
  }

  datatype DatasetsValue = DatasetsValue(env: seq<EnvVar>, mounting: Mounting)

  function WithDatasets(env: seq<EnvVar>, m: Mounting, ds: seq<Dataset>, naming: Naming, manifest: string)
    : Result<DatasetsValue>
  {
    if ds == [] then Ok(DatasetsValue(env, m))
    else if Reserved(env) then Err(ReservedEnv)
    else
      match Mounted(m, ds, naming)
      case Err(e) => Err(e)
      case Ok(mounted) => Ok(DatasetsValue(env + [EnvVar(MANIFEST, manifest)], mounted))
  }

  /** The mounting loop with its two name sets. */
  method MountDatasets(m: Mounting, ds: seq<Dataset>, naming: Naming) returns (r: Result<Mounting>)
    ensures r == Mounted(m, ds, naming)
  {
    var volumes, mounts := m.volumes, m.mounts;
    var names := set v | v in volumes :: v.name;
    var paths := set t | t in mounts :: t.path;
    for i := 0 to |ds|
      invariant Mounted(m, ds[..i], naming) == Ok(Mounting(volumes, mounts))
      invariant forall n :: n in names <==> HasVolume(volumes, n)
      invariant forall p :: p in paths <==> HasPath(mounts, p)
    {
      var d := ds[i];
      assert ds[..i + 1][..i] == ds[..i];
      if d.pvc.None? {
        continue;
      }
      if d.mountPath == "" {
        ErrorSticks(m, ds, i + 1, naming);
        return Err(MissingMountPath);
      }
      if d.mountPath in paths {
        ErrorSticks(m, ds, i + 1, naming);
        return Err(MountPathClash);
      }
      var name := naming(d.resource);
      if name !in names {
        VolumeAppended(volumes, VolumeOf(d, naming));
        volumes := volumes + [VolumeOf(d, naming)];
        names := names + {name};
      }
      PathAppended(mounts, MountOf(d, naming));
      mounts := mounts + [MountOf(d, naming)];
      paths := paths + {d.mountPath};
    }
    assert ds[..|ds|] == ds;
    r := Ok(Mounting(volumes, mounts));
  }

  lemma VolumeAppended(volumes: seq<Volume>, v: Volume)
    ensures forall n :: HasVolume(volumes + [v], n) <==> HasVolume(volumes, n) || n == v.name
  {
    var more := volumes + [v];
    assert more[|volumes|] == v;
    assert forall i | 0 <= i < |volumes| :: more[i] == volumes[i];
    assert forall i | 0 <= i < |more| :: i == |volumes| || more[i] == volumes[i];
  }

  lemma PathAppended(mounts: seq<Mount>, t: Mount)
    ensures forall p :: HasPath(mounts + [t], p) <==> HasPath(mounts, p) || p == t.path
  {
    var more := mounts + [t];
    assert more[|mounts|] == t;
    assert forall i | 0 <= i < |mounts| :: more[i] == mounts[i];
    assert forall i | 0 <= i < |more| :: i == |mounts| || more[i] == mounts[i];
  }

  /** New lists for what is not empty. */
  method PutMounting(container: Container, pod: Pod, m: Mounting)
    requires m.volumes == [] ==> ItemsV(pod.volumes) == []
    requires m.mounts == [] ==> ItemsV(container.mounts) == []
    modifies container`mounts, pod`volumes
    ensures ItemsV(pod.volumes) == m.volumes && ItemsV(container.mounts) == m.mounts
  {
    if m.volumes != [] {
      pod.volumes := new ListOf(m.volumes);
    }
    if m.mounts != [] {
      container.mounts := new ListOf(m.mounts);
    }
  }

  method ApplyDatasets(container: Container, pod: Pod, ds: seq<Dataset>, naming: Naming, manifest: string)
    returns (error: Option<Problem>)
    modifies container`env, container`mounts, pod`volumes
    ensures match WithDatasets(old(ItemsV(container.env)),
                               Mounting(old(ItemsV(pod.volumes)), old(ItemsV(container.mounts))),
                               ds, naming, manifest)
            case Err(e) => error == Some(e)
            case Ok(v) => error.None? && ItemsV(container.env) == v.env
                          && ItemsV(pod.volumes) == v.mounting.volumes && ItemsV(container.mounts) == v.mounting.mounts
  {
    if ds == [] {
      return None;
    }
    var env := if container.env == null then [] else container.env.items;
    if exists i | 0 <= i < |env| :: env[i].name == MANIFEST {
      return Some(ReservedEnv);
    }
    container.env := new ListOf(env + [EnvVar(MANIFEST, manifest)]);
    var volumes := if pod.volumes == null then [] else pod.volumes.items;
    var mounts := if container.mounts == null then [] else container.mounts.items;
    var mounted := MountDatasets(Mounting(volumes, mounts), ds, naming);
    if mounted.Err? {
      return Some(mounted.problem);
    }
    MountedKeeps(Mounting(volumes, mounts), ds, naming);
    PutMounting(container, pod, mounted.value);
    return None;
  }

  // ---------------------------------------------------------------- the whole builder

  datatype BuiltValue = BuiltValue(
    pod: PodValue, resources: ResourceValue, env: seq<EnvVar>, mounting: Mounting, minimum: Option<int>, hash: string)

  /** Everything the built pod holds, as a function of the submitted body. */
  function Built(b: BodyValue, ds: seq<Dataset>, naming: Naming, manifest: string, digest: BodyValue -> string)
    : Result<BuiltValue>
  {
    match WithDatasets(b.env, Mounting(b.volumes, b.mounts), ds, naming, manifest)
    case Err(e) => Err(e)
    case Ok(d) =>
      match Accelerated(b.accelerator, b.pod, b.resources)
      case Err(e) => Err(e)
      case Ok(a) => Ok(BuiltValue(a.pod, a.resources, d.env, d.mounting, a.minimum, digest(b)))
  }

  /** What a plan's class is worth: it holds the stated requirement, which for a fit plan is the
      least whole number of GiB that covers the floor and the formula. */
  lemma SelectedHolds(a: Accelerator, c: GpuClass)
    requires Usable(a) && Select(a) == Ok(c) && RequiredGiB(a).Some?
    ensures Holds(c, RequiredGiB(a).value)
    ensures a.fit.Some? ==> Covers(a, RequiredGiB(a).value) && forall m | Covers(a, m) :: RequiredGiB(a).value <= m
  {
  }

  /** End to end: whenever a body with an accelerator builds, its pod runs on exactly the nodes the
      submitted pod admitted that carry the selected class and one of the products; that class
      holds the requirement; the container asks for exactly the planned GPUs, as request and as
      limit; the user's volumes and mounts come first, the datasets' mounts follow in order and
      share no path unless the user's did; and the hash is that of the submitted body. */
  lemma BuiltPodFits(b: BodyValue, ds: seq<Dataset>, naming: Naming, manifest: string, digest: BodyValue -> string,
                     node: Node)
    requires Built(b, ds, naming, manifest, digest).Ok? && b.accelerator.Some?
    requires !(HasEmptyTerm(b.pod) && Rewrites(b.pod, b.accelerator.value.products))
    ensures var v, a := Built(b, ds, naming, manifest, digest).value, b.accelerator.value;
      && Usable(a) && Select(a).Ok? && v.minimum == RequiredGiB(a)
      && (Admits(v.pod, node) <==> Admits(b.pod, node) && Wanted(ClassName(Select(a).value), a.products, node))
      && (v.minimum.Some? ==> Holds(Select(a).value, v.minimum.value))
      && v.resources.request == v.resources.limit == Reads(match a.count case Whole(n) => n case _ => 1)
      && v.resources.rest == b.resources.rest
      && v.env == b.env + (if ds == [] then [] else [EnvVar("MODEL_FLEET_DATASETS_JSON", manifest)])
      && v.mounting.mounts == b.mounts + Asked(ds, naming) && b.volumes <= v.mounting.volumes
      && (DistinctPaths(b.mounts) ==> DistinctPaths(v.mounting.mounts))
      && v.hash == digest(b)
  {
    var a := b.accelerator.value;
    PlacementMeaning(b.pod, ClassName(Select(a).value), a.products, node);
    if RequiredGiB(a).Some? {
      SelectedHolds(a, Select(a).value);
    }
    if ds == [] {
      assert b.mounts + Asked(ds, naming) == b.mounts && b.env + [] == b.env;
    } else {
      MountedKeeps(Mounting(b.volumes, b.mounts), ds, naming);
    }
  }

  /** Without an accelerator the pod and the resources are the submitted ones. */
  lemma PlainPodKept(b: BodyValue, ds: seq<Dataset>, naming: Naming, manifest: string, digest: BodyValue -> string)
    requires Built(b, ds, naming, manifest, digest).Ok? && b.accelerator.None?
    ensures var v := Built(b, ds, naming, manifest, digest).value;
      && v.pod == b.pod && v.resources == b.resources && v.minimum == None && v.hash == digest(b)
      && v.env == b.env + (if ds == [] then [] else [EnvVar("MODEL_FLEET_DATASETS_JSON", manifest)])
      && v.mounting.mounts == b.mounts + Asked(ds, naming) && b.volumes <= v.mounting.volumes
  {
    if ds == [] {
      assert b.mounts + Asked(ds, naming) == b.mounts && b.env + [] == b.env;
    } else {
      MountedKeeps(Mounting(b.volumes, b.mounts), ds, naming);
    }
  }

  /** The selector and the affinity leave room for the class and the products. */
  predicate RoomFor(pod: PodValue, name: string, products: Option<seq<string>>) {
    && (CLASS_LABEL in pod.selector ==> pod.selector[CLASS_LABEL] == name)
    && (products.Some? ==>
          && products.value != [] && "" !in products.value
          && if PRODUCT_LABEL in pod.selector && pod.selector[PRODUCT_LABEL] != ""
             then pod.selector[PRODUCT_LABEL] in products.value
             else pod.affinity.terms.Some? ==>
                    forall i | 0 <= i < |pod.affinity.terms.value| :: !NamesProduct(pod.affinity.terms.value[i]))
  }

  /** The plan names a class that holds its requirement, or leaves the choice open and states one. */
  predicate ClassFits(a: Accelerator)
    requires Usable(a)
  {
    if a.class_.None? || a.class_.value == "auto" then RequiredGiB(a).Some?
    else ClassOfName(a.class_.value).Some?
         && (RequiredGiB(a).Some? ==> Holds(ClassOfName(a.class_.value).value, RequiredGiB(a).value))
  }

  predicate DatasetsFit(b: BodyValue, ds: seq<Dataset>) {
    ds == []
    || ((forall i | 0 <= i < |b.env| :: b.env[i].name != "MODEL_FLEET_DATASETS_JSON")
        && forall j | 0 <= j < |ds| :: !Clashes(Mounting(b.volumes, b.mounts), ds, j))
  }

  /** Exactly the bodies that build: no reserved variable and no path clash; and with an
      accelerator, a plan that passes every check, a class that fits, a GPU request that is absent
      or equal to the count, and a selector and affinity that leave room. */
  lemma BuildsIff(b: BodyValue, ds: seq<Dataset>, naming: Naming, manifest: string, digest: BodyValue -> string)
    ensures Built(b, ds, naming, manifest, digest).Ok? <==>
      && DatasetsFit(b, ds)
      && (b.accelerator.Some? ==>
            var a := b.accelerator.value;
            && Usable(a) && ClassFits(a)
            && (b.resources.request.Unset?
                || b.resources.request == Reads(match a.count case Whole(n) => n case _ => 1))
            && RoomFor(b.pod, ClassName(Select(a).value), a.products))
  {
    if ds != [] {
      MountingRaisesIff(Mounting(b.volumes, b.mounts), ds, naming);
    }
    if b.accelerator.Some? && Usable(b.accelerator.value) && Select(b.accelerator.value).Ok? {
      var a := b.accelerator.value;
      PlacedIff(b.pod, ClassName(Select(a).value), a.products);
    }
  }

  lemma PlacedIff(pod: PodValue, name: string, products: Option<seq<string>>)
    ensures Placed(pod, name, products).Ok? <==> RoomFor(pod, name, products)
  {
    if products.Some? && WithClass(pod, name).Ok? {
      var labelled := WithClass(pod, name).value;
      assert PRODUCT_LABEL in labelled.selector <==> PRODUCT_LABEL in pod.selector;
      assert labelled.affinity == pod.affinity;
      assert !NamesProduct(TermValue([], []));
    }
  }

  method Share<T>(l: ListOf?<T>) returns (r: ListOf?<T>)
    ensures (r == l || r == null) && ItemsV(r) == ItemsV(l)
  {
    r := if l != null && l.items != [] then l else null;
  }

  /** Pod and container as they start out: every list and dictionary is the body's own. */
  method StartPod(body: Body) returns (pod: Pod, container: Container)
    ensures fresh(pod) && fresh(container)
    ensures pod.nodeSelector == body.nodeSelector && pod.affinity == body.affinity
            && container.resources == body.resources
    ensures pod.volumes == body.volumes || pod.volumes == null
    ensures container.env == body.env || container.env == null
    ensures container.mounts == body.mounts || container.mounts == null
    ensures ItemsV(pod.volumes) == ItemsV(body.volumes) && ItemsV(container.env) == ItemsV(body.env)
    ensures ItemsV(container.mounts) == ItemsV(body.mounts)
  {
    var env := Share(body.env);
    var mounts := Share(body.mounts);
    var volumes := Share(body.volumes);
    container := new Container(body.resources, env, mounts);
    pod := new Pod(body.nodeSelector, body.affinity, volumes);
  }

  /** Both rewrites, on a pod and a container that may share their lists with anything. */
  method Rewrite(accelerator: Option<Accelerator>, pod: Pod, container: Container, ds: seq<Dataset>,
                 naming: Naming, manifest: string)
    returns (r: Result<Option<int>>)
    modifies pod, container
    ensures match WithDatasets(old(ItemsV(container.env)),
                               Mounting(old(ItemsV(pod.volumes)), old(ItemsV(container.mounts))),
                               ds, naming, manifest)
            case Err(e) => r == Err(e)
            case Ok(d) =>
              match Accelerated(accelerator, old(PodV(pod)), old(ResourcesV(container.resources)))
              case Err(e) => r == Err(e)
              case Ok(a) => r == Ok(a.minimum) && PodV(pod) == a.pod && ResourcesV(container.resources) == a.resources
                            && ItemsV(container.env) == d.env
                            && ItemsV(pod.volumes) == d.mounting.volumes
                            && ItemsV(container.mounts) == d.mounting.mounts
  {
    var error := ApplyDatasets(container, pod, ds, naming, manifest);
    if error.Some? {
      return Err(error.value);
    }
    r := ApplyAccelerator(accelerator, pod, container);
  }

  /** Build the pod of a training run. The method may change nothing that existed before the call,
      although pod and container share the body's own objects while they are rewritten; the hash
      is taken after the rewrites and is still that of the submitted body. */
  method BuildPod(body: Body, ds: seq<Dataset>, naming: Naming, manifest: string, ghost digest: BodyValue -> string)
    returns (r: Result<Option<int>>, pod: Pod, container: Container, ghost hash: string)
    ensures fresh(pod) && fresh(container) && BodyV(body) == old(BodyV(body))
    ensures match Built(BodyV(body), ds, naming, manifest, digest)
            case Err(e) => r == Err(e)
            case Ok(v) => r == Ok(v.minimum) && hash == v.hash
                          && PodV(pod) == v.pod && ResourcesV(container.resources) == v.resources
                          && ItemsV(container.env) == v.env
                          && Mounting(ItemsV(pod.volumes), ItemsV(container.mounts)) == v.mounting
  {
    pod, container := StartPod(body);
    ghost var b := BodyV(body);
    r := Rewrite(body.accelerator, pod, container, ds, naming, manifest);
    assert BodyV(body) == b;
    hash := digest(BodyV(body));
  }

  /** Two builds of one body agree in all they hold, the second one after the first has rewritten
      its copies. */
  method BuildTwice(body: Body, ds: seq<Dataset>, naming: Naming, manifest: string, ghost digest: BodyValue -> string)
    returns (r1: Result<Option<int>>, r2: Result<Option<int>>, pods: (Pod, Pod), containers: (Container, Container),
             ghost hashes: (string, string))
    ensures r1 == r2
    ensures r1.Ok? ==>
      && PodV(pods.0) == PodV(pods.1) && ItemsV(pods.0.volumes) == ItemsV(pods.1.volumes)
      && ResourcesV(containers.0.resources) == ResourcesV(containers.1.resources)
      && ItemsV(containers.0.env) == ItemsV(containers.1.env)
      && ItemsV(containers.0.mounts) == ItemsV(containers.1.mounts)
      && hashes.0 == hashes.1
  {
    var pod1, pod2, container1, container2;
    ghost var hash1, hash2;
    r1, pod1, container1, hash1 := BuildPod(body, ds, naming, manifest, digest);
    r2, pod2, container2, hash2 := BuildPod(body, ds, naming, manifest, digest);
    pods, containers, hashes := (pod1, pod2), (container1, container2), (hash1, hash2);
  }
}
