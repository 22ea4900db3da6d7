/** The product classes of insights/core/context.py (Docker, OSP, RHEV as
    multi-node products, and RHEL), the search for the current system in the
    upload's metadata, and `create_product`. */
module Products {
  import opened Py

  /** The product classes that the module decorates with `@product`. */
  datatype ProductClass = Docker | OSP | RHEV | RHEL {

    /** The class attribute `name`. */
    function Name(): string
    {
      match this
      case Docker => "docker"
      case OSP => "osp"
      case RHEV => "rhev"
      case RHEL => "rhel"
    }

    /** Docker, OSP and RHEV derive from `MultiNodeProduct`. */
    predicate IsMultiNode()
    {
      !RHEL?
    }

    /** The class attributes an instance falls back to when its own `__dict__`
        lacks a name. */
    function ClassAttrs(): map<string, Value>
    {
      match this
      case Docker => map["name" := PyStr("docker"), "parent_type" := PyStr("host")]
      case OSP => map["name" := PyStr("osp"), "parent_type" := PyStr("Director")]
      case RHEV => map["name" := PyStr("rhev"), "parent_type" := PyStr("Manager")]
      case RHEL => map["name" := PyStr("rhel")]
    }
  }

  /** The role value for which `is_parent()` holds: the class's `parent_type`. */
  function ParentType(cls: ProductClass): (t: string)
    requires cls.IsMultiNode()
    ensures cls.ClassAttrs()["parent_type"] == PyStr(t)
    ensures t == "host" <==> cls == Docker
    ensures t == "Director" <==> cls == OSP
    ensures t == "Manager" <==> cls == RHEV
  {
    match cls
    case Docker => "host"
    case OSP => "Director"
    case RHEV => "Manager"
  }

  /** `DEFAULT_VERSION = ["-1", "-1"]`. */
  const DefaultVersion: Value := PyList([PyStr("-1"), PyStr("-1")])

  /** One entry of `metadata["systems"]`: a dict of system fields. */
  type System = map<string, Value>

  /** The upload metadata: an optional `systems` list and an optional
      `product` string. `{}` is `Metadata(None, None)`. */
  datatype Metadata = Metadata(systems: Option<seq<System>>, product: Option<string>)

  const EmptyMetadata := Metadata(None, None)

  /** A product instance: its class and its `__dict__`. */
  datatype Instance = Instance(cls: ProductClass, dict: map<string, Value>)

  /** `getattr(inst, name)`: the instance's own fields first, then the class
      attributes; otherwise `AttributeError`. */
  function GetAttr(inst: Instance, name: string): (r: Outcome<Value>)
    ensures r.Ok? <==> name in inst.dict || name in inst.cls.ClassAttrs()
    ensures name in inst.dict ==> r == Ok(inst.dict[name])
    ensures name !in inst.dict && name in inst.cls.ClassAttrs() ==> r == Ok(inst.cls.ClassAttrs()[name])
    ensures r.Raise? ==> r.error == AttributeError(name)
  {
    if name in inst.dict then Ok(inst.dict[name])
    else if name in inst.cls.ClassAttrs() then Ok(inst.cls.ClassAttrs()[name])
    else Raise(AttributeError(name))
  }

  /** `p()`: `MultiNodeProduct.__init__(role=None)` or
      `RHEL.__init__(version=DEFAULT_VERSION, release=None)`. A product built
      with the defaults is falsy, and a multi-node one is no parent. */
  function Construct(cls: ProductClass): (r: Instance)
    ensures r.cls == cls
    ensures Bool(r) == Ok(false)
    ensures cls.IsMultiNode() ==> IsParent(r) == Ok(false)
  {
    if cls.IsMultiNode() then Instance(cls, map["role" := PyNone])
    else Instance(RHEL, map["version" := DefaultVersion, "release" := PyNone])
  }

  /** `MultiNodeProduct(role)` for one of its subclasses. */
  function NewMultiNode(cls: ProductClass, role: Value): Instance
    requires cls.IsMultiNode()
  {
    Instance(cls, map["role" := role])
  }

  /** `RHEL(version, release)`. */
  function NewRhel(version: Value, release: Value): Instance
  {
    Instance(RHEL, map["version" := version, "release" := release])
  }

  /** `bool(inst)`. A multi-node product is truthy iff its `role` is; RHEL is
      truthy iff its version differs from DEFAULT_VERSION and its release is
      truthy. A missing field raises. */
  function Bool(inst: Instance): (r: Outcome<bool>)
    ensures inst.cls.IsMultiNode() ==>
      (r.Raise? <==> "role" !in inst.dict) &&
      (r == Ok(true) <==> "role" in inst.dict && Truthy(inst.dict["role"]))
    ensures inst.cls == RHEL ==>
      (r.Raise? <==> "version" !in inst.dict || "release" !in inst.dict) &&
      (r == Ok(true) <==>
        "version" in inst.dict && "release" in inst.dict &&
        inst.dict["version"] != DefaultVersion && Truthy(inst.dict["release"]))
  {
    if inst.cls.IsMultiNode() then
      match GetAttr(inst, "role")
      case Raise(e) => Raise(e)
      case Ok(role) => Ok(Truthy(role))
    else
      match GetAttr(inst, "version")
      case Raise(e) => Raise(e)
      case Ok(version) =>
        match GetAttr(inst, "release")
        case Raise(e) => Raise(e)
        case Ok(release) =>
          PyEqStrings(version, DefaultVersion.items);
          Ok(!PyEq(version, DefaultVersion) && Truthy(release))
  }

  /** `inst.is_parent()`: defined on multi-node products only; holds iff the
      `role` equals the `parent_type` (the class's, unless the instance's own
      fields shadow it). */
  function IsParent(inst: Instance): (r: Outcome<bool>)
    ensures !inst.cls.IsMultiNode() ==> r == Raise(AttributeError("is_parent"))
    ensures inst.cls.IsMultiNode() ==> (r.Raise? <==> "role" !in inst.dict)
    ensures inst.cls.IsMultiNode() && "parent_type" !in inst.dict ==>
      (r == Ok(true) <==> "role" in inst.dict && inst.dict["role"] == PyStr(ParentType(inst.cls)))
  {
    if !inst.cls.IsMultiNode() then Raise(AttributeError("is_parent"))
    else
      match GetAttr(inst, "role")
      case Raise(e) => Raise(e)
      case Ok(role) =>
        match GetAttr(inst, "parent_type")
        case Raise(e) => Raise(e)
        case Ok(parent) => Ok(PyEq(role, parent))
  }

  /** A freshly constructed product: a multi-node product is truthy and a
      parent exactly as its role says; a RHEL is truthy exactly when its
      version is not DEFAULT_VERSION and its release is truthy. */
  lemma ConstructedTruthiness(cls: ProductClass, role: Value, version: Value, release: Value)
    ensures cls.IsMultiNode() ==> Bool(NewMultiNode(cls, role)) == Ok(Truthy(role))
    ensures cls.IsMultiNode() ==>
      IsParent(NewMultiNode(cls, role)) == Ok(role == PyStr(ParentType(cls)))
    ensures Bool(NewRhel(version, release)) == Ok(version != DefaultVersion && Truthy(release))
  {
  }

  /** `RHEL.from_metadata(metadata, processor_obj)`: a default RHEL, which is
      falsy. */
  function RhelFromMetadata(metadata: Metadata): (r: Instance)
    ensures r.cls == RHEL && Bool(r) == Ok(false)
  {
    Construct(RHEL)
  }

  /** `metadata.get("systems", [])`. */
  function SystemsOf(metadata: Metadata): seq<System>
  {
    if metadata.systems.Some? then metadata.systems.value else []
  }

  /** `system.get("system_id") == hostname`. A system without `system_id`
      matches a hostname of None. */
  predicate Matches(system: System, hostname: Value)
  {
    PyEq(if "system_id" in system then system["system_id"] else PyNone, hostname)
  }

  /** A system without `system_id` matches exactly the hostname None; a
      string `system_id` matches exactly the same string. */
  lemma MatchesSystemId(system: System, hostname: Value)
    ensures "system_id" !in system ==> (Matches(system, hostname) <==> hostname == PyNone)
    ensures "system_id" in system && system["system_id"].PyStr? ==>
      (Matches(system, hostname) <==> hostname == system["system_id"])
  {
  }

  /** The position of the first system that matches the hostname. */
  function FirstMatch(systems: seq<System>, hostname: Value): Option<nat>
  {
    FirstIndex(systems, s => Matches(s, hostname))
  }

  lemma FirstMatchSpec(systems: seq<System>, hostname: Value)
    ensures FirstMatch(systems, hostname).Some? ==>
      FirstMatch(systems, hostname).value < |systems| &&
      Matches(systems[FirstMatch(systems, hostname).value], hostname) &&
      forall j :: 0 <= j < FirstMatch(systems, hostname).value ==> !Matches(systems[j], hostname)
    ensures FirstMatch(systems, hostname).None? <==> forall j :: 0 <= j < |systems| ==> !Matches(systems[j], hostname)
  {
    FirstIndexSpec(systems, s => Matches(s, hostname));
  }

  /** `get_system(metadata, hostname)`: the first entry of
      `metadata["systems"]` whose `system_id` equals the hostname, or None
      when none does or there is no `systems` entry. */
  function SystemFor(metadata: Metadata, hostname: Value): (r: Option<System>)
    ensures r.None? <==> forall j :: 0 <= j < |SystemsOf(metadata)| ==> !Matches(SystemsOf(metadata)[j], hostname)
    ensures metadata.systems.None? ==> r.None?
    ensures r.Some? ==>
      (exists i :: 0 <= i < |SystemsOf(metadata)| &&
        SystemsOf(metadata)[i] == r.value && Matches(r.value, hostname) &&
        (forall j :: 0 <= j < i ==> !Matches(SystemsOf(metadata)[j], hostname)))
  {
    FirstMatchSpec(SystemsOf(metadata), hostname);
    match FirstMatch(SystemsOf(metadata), hostname)
    case None => None
    case Some(i) => Some(SystemsOf(metadata)[i])
  }

  /** `get_system` as the loop the source runs. The position returned beside
      the system stands for the identity of the dict object the source
      returns, through which `create_product` later writes. */
  method GetSystem(metadata: Metadata, hostname: Value) returns (r: Option<System>, pos: Option<nat>)
    ensures pos == FirstMatch(SystemsOf(metadata), hostname)
    ensures r == SystemFor(metadata, hostname)
    ensures r.Some? <==> pos.Some?
    ensures pos.Some? ==> pos.value < |SystemsOf(metadata)| && r.value == SystemsOf(metadata)[pos.value]
  {
    var systems := SystemsOf(metadata);
    var i := 0;
    while i < |systems|
      invariant 0 <= i <= |systems|
      invariant forall j :: 0 <= j < i ==> !Matches(systems[j], hostname)
    {
      if Matches(systems[i], hostname) {
        FirstIndexUnique(systems, s => Matches(s, hostname), i);
        return Some(systems[i]), Some(i);
      }
      i := i + 1;
    }
    FirstMatchSpec(systems, hostname);
    return None, None;
  }

  /** `metadata.get("product", "").lower()`. */
  function RequestedName(metadata: Metadata): string
  {
    Lower(if metadata.product.Some? then metadata.product.value else "")
  }

  /** Without a `product` entry nothing is requested; otherwise any spelling
      of a product's name that differs only in ASCII case requests that
      product. */
  lemma RequestedNameSpec(metadata: Metadata, cls: ProductClass)
    ensures metadata.product.None? ==> RequestedName(metadata) == ""
    ensures metadata.product.Some? && |metadata.product.value| == |cls.Name()| &&
      (forall i :: 0 <= i < |cls.Name()| ==> LowerChar(metadata.product.value[i]) == cls.Name()[i])
      ==> RequestedName(metadata) == cls.Name()
  {
    if metadata.product.Some? {
      var p := metadata.product.value;
      LowerSpec(p);
      assert forall i :: 0 <= i < |p| ==> Lower(p)[i] == LowerChar(p[i]);
    }
  }

  /** The position of the first registered product with the given name. */
  function FirstNamed(products: seq<ProductClass>, name: string): Option<nat>
  {
    FirstIndex(products, (p: ProductClass) => p.Name() == name)
  }

  lemma FirstNamedSpec(products: seq<ProductClass>, name: string)
    ensures FirstNamed(products, name).Some? ==>
      FirstNamed(products, name).value < |products| &&
      products[FirstNamed(products, name).value].Name() == name &&
      forall j :: 0 <= j < FirstNamed(products, name).value ==> products[j].Name() != name
    ensures FirstNamed(products, name).None? <==> forall j :: 0 <= j < |products| ==> products[j].Name() != name
  {
    FirstIndexSpec(products, (p: ProductClass) => p.Name() == name);
  }

  /** The system's fields after `instance.__dict__ = system` and, when the
      system has a `type`, `instance.role = instance.type`. */
  function WithRole(system: System): System
  {
    if "type" in system then system["role" := system["type"]] else system
  }

  /** The instance's fields are exactly the system's, with `role` added (or
      overwritten) from `type` when the system has one. */
  lemma WithRoleFields(system: System)
    ensures WithRole(system).Keys == system.Keys + (if "type" in system then {"role"} else {})
    ensures forall k :: k in system && k != "role" ==> WithRole(system)[k] == system[k]
    ensures "type" in system ==> WithRole(system)["role"] == system["type"]
    ensures "type" !in system ==> WithRole(system) == system
  {
  }

  /** Setting the role twice is setting it once. */
  lemma WithRoleIdempotent(system: System)
    ensures WithRole(WithRole(system)) == WithRole(system)
  {
    if "type" in system {
      var d := WithRole(system);
      assert WithRole(d) == d["role" := d["type"]];
      assert d["type"] == system["type"] == d["role"];
      assert d["role" := d["type"]] == d;
    }
  }

  /** The body of `create_product` once `current_system` is known: the first
      registered product whose name is the requested one, built from a truthy
      (non-empty) system. */
  function Build(products: seq<ProductClass>, want: string, current: Option<System>): Option<Instance>
  {
    if current.Some? && |current.value| > 0 then
      match FirstNamed(products, want)
      case None => None
      case Some(k) => Some(Instance(products[k], WithRole(current.value)))
    else None
  }

  /** `create_product(metadata, hostname)`. */
  function ProductFor(products: seq<ProductClass>, metadata: Metadata, hostname: Value): Option<Instance>
  {
    Build(products, RequestedName(metadata), SystemFor(metadata, hostname))
  }

  /** The metadata as `create_product` leaves it: since the instance shares
      the matched system's dict, setting `role` writes it into
      `metadata["systems"]`. */
  function Touched(products: seq<ProductClass>, metadata: Metadata, hostname: Value): Metadata
  {
    match FirstMatch(SystemsOf(metadata), hostname)
    case None => metadata
    case Some(i) =>
      var system := SystemsOf(metadata)[i];
      if ProductFor(products, metadata, hostname).Some? && "type" in system then
        metadata.(systems := Some(SystemsOf(metadata)[i := WithRole(system)]))
      else metadata
  }

  /** `create_product` returns an instance of a registered product whose
      name is the requested one, holding the matched system's fields with
      `role` from `type`; and it returns one whenever the matched system is
      non-empty and some registered product has the requested name. */
  lemma ProductForSpec(products: seq<ProductClass>, metadata: Metadata, hostname: Value)
    ensures ProductFor(products, metadata, hostname).Some? ==>
      ProductFor(products, metadata, hostname).value.cls in products &&
      ProductFor(products, metadata, hostname).value.cls.Name() == RequestedName(metadata)
    ensures ProductFor(products, metadata, hostname).Some? ==>
      SystemFor(metadata, hostname).Some? && |SystemFor(metadata, hostname).value| > 0 &&
      ProductFor(products, metadata, hostname).value.dict == WithRole(SystemFor(metadata, hostname).value)
    ensures SystemFor(metadata, hostname).Some? && |SystemFor(metadata, hostname).value| > 0 &&
      (exists k :: 0 <= k < |products| && products[k].Name() == RequestedName(metadata))
      ==> ProductFor(products, metadata, hostname).Some?
  {
    FirstNamedSpec(products, RequestedName(metadata));
  }

  /** `create_product` changes the metadata only in the first matching
      system, and there only by setting `role` from `type` when it returns a
      product; the `product` entry and the number of systems are kept. */
  lemma TouchedSpec(products: seq<ProductClass>, metadata: Metadata, hostname: Value)
    ensures Touched(products, metadata, hostname).product == metadata.product
    ensures Touched(products, metadata, hostname).systems.Some? <==> metadata.systems.Some?
    ensures |SystemsOf(Touched(products, metadata, hostname))| == |SystemsOf(metadata)|
    ensures forall j :: 0 <= j < |SystemsOf(metadata)| && FirstMatch(SystemsOf(metadata), hostname) != Some(j) ==>
      SystemsOf(Touched(products, metadata, hostname))[j] == SystemsOf(metadata)[j]
    ensures FirstMatch(SystemsOf(metadata), hostname).Some? ==>
      var i := FirstMatch(SystemsOf(metadata), hostname).value;
      i < |SystemsOf(metadata)| &&
      SystemsOf(Touched(products, metadata, hostname))[i] ==
        if ProductFor(products, metadata, hostname).Some? then WithRole(SystemsOf(metadata)[i]) else SystemsOf(metadata)[i]
  {
    FirstMatchSpec(SystemsOf(metadata), hostname);
    match FirstMatch(SystemsOf(metadata), hostname)
    case None =>
    case Some(i) => WithRoleFields(SystemsOf(metadata)[i]);
  }

  /** No system matching the hostname, or no registered product with the
      requested name: no product. */
  lemma ProductForNone(products: seq<ProductClass>, metadata: Metadata, hostname: Value)
    ensures (forall j :: 0 <= j < |SystemsOf(metadata)| ==> !Matches(SystemsOf(metadata)[j], hostname))
            ==> ProductFor(products, metadata, hostname).None?
    ensures (forall k :: 0 <= k < |products| ==> products[k].Name() != RequestedName(metadata))
            ==> ProductFor(products, metadata, hostname).None?
  {
    FirstMatchSpec(SystemsOf(metadata), hostname);
    FirstNamedSpec(products, RequestedName(metadata));
  }

  /** On a match, the product is an instance of the first registered product
      whose name is the requested one, and its fields are exactly the matched
      system's, with `role` added from `type`. */
  lemma ProductForMatch(products: seq<ProductClass>, metadata: Metadata, hostname: Value, i: nat, k: nat)
    requires i < |SystemsOf(metadata)| && Matches(SystemsOf(metadata)[i], hostname)
    requires forall j :: 0 <= j < i ==> !Matches(SystemsOf(metadata)[j], hostname)
    requires |SystemsOf(metadata)[i]| > 0
    requires k < |products| && products[k].Name() == RequestedName(metadata)
    requires forall j :: 0 <= j < k ==> products[j].Name() != RequestedName(metadata)
    ensures ProductFor(products, metadata, hostname) == Some(Instance(products[k], WithRole(SystemsOf(metadata)[i])))
  {
    FirstIndexUnique(SystemsOf(metadata), s => Matches(s, hostname), i);
    FirstIndexUnique(products, (p: ProductClass) => p.Name() == RequestedName(metadata), k);
  }

  /** Replacing the first matching system by another that still matches
      keeps it the first match. */
  lemma FirstMatchAfterUpdate(systems: seq<System>, hostname: Value, i: nat, system: System)
    requires FirstMatch(systems, hostname) == Some(i)
    requires Matches(system, hostname)
    ensures FirstMatch(systems[i := system], hostname) == Some(i)
  {
    FirstMatchSpec(systems, hostname);
    FirstIndexUnique(systems[i := system], s => Matches(s, hostname), i);
  }

  /** Writing the role into the matched system changes neither which system
      matches nor the product built from it: a second `create_product` on the
      metadata the first left behind returns the same product and leaves the
      metadata as it was. */
  lemma TouchedKeepsProduct(products: seq<ProductClass>, metadata: Metadata, hostname: Value)
    ensures ProductFor(products, Touched(products, metadata, hostname), hostname) == ProductFor(products, metadata, hostname)
    ensures Touched(products, Touched(products, metadata, hostname), hostname) == Touched(products, metadata, hostname)
  {
    var m' := Touched(products, metadata, hostname);
    if m' != metadata {
      var systems := SystemsOf(metadata);
      var i := FirstMatch(systems, hostname).value;
      var system := systems[i];
      var updated := WithRole(system);
      assert updated.Keys >= system.Keys;
      assert Matches(updated, hostname) by {
        assert "system_id" in updated <==> "system_id" in system;
      }
      FirstMatchAfterUpdate(systems, hostname, i, updated);
      assert SystemFor(m', hostname) == Some(updated);
      WithRoleIdempotent(system);
      assert RequestedName(m') == RequestedName(metadata);
      assert ProductFor(products, m', hostname) == ProductFor(products, metadata, hostname);
      assert SystemsOf(m')[i := WithRole(updated)] == SystemsOf(m');
    }
  }

  /** What `create_product` returns, and how it leaves the metadata, once
      the matching system and the product are found. */
  lemma ProductForFound(products: seq<ProductClass>, metadata: Metadata, hostname: Value, i: nat, k: nat)
    requires FirstMatch(SystemsOf(metadata), hostname) == Some(i)
    requires |SystemsOf(metadata)[i]| > 0
    requires FirstNamed(products, RequestedName(metadata)) == Some(k)
    ensures ProductFor(products, metadata, hostname) == Some(Instance(products[k], WithRole(SystemsOf(metadata)[i])))
    ensures Touched(products, metadata, hostname) ==
      if "type" in SystemsOf(metadata)[i]
      then metadata.(systems := Some(SystemsOf(metadata)[i := WithRole(SystemsOf(metadata)[i])]))
      else metadata
  {
  }

  /** `create_product` as the loop the source runs: it returns the product
      and the metadata as it leaves it. */
  method CreateProduct(products: seq<ProductClass>, metadata: Metadata, hostname: Value)
    returns (r: Option<Instance>, after: Metadata)
    ensures r == ProductFor(products, metadata, hostname)
    ensures after == Touched(products, metadata, hostname)
  {
    var current, pos := GetSystem(metadata, hostname);
    var want := RequestedName(metadata);
    r, after := None, metadata;
    var k := 0;
    while k < |products|
      invariant 0 <= k <= |products|
      invariant forall j :: 0 <= j < k ==> !(want == products[j].Name() && current.Some? && |current.value| > 0)
    {
      var p := products[k];
      if want == p.Name() && current.Some? && |current.value| > 0 {
        var dict := current.value;
        if "type" in dict {
          dict := dict["role" := dict["type"]];
          after := metadata.(systems := Some(SystemsOf(metadata)[pos.value := dict]));
        }
        FirstIndexUnique(products, (q: ProductClass) => q.Name() == want, k);
        ProductForFound(products, metadata, hostname, pos.value, k);
        r := Some(Instance(p, dict));
        return;
      }
      k := k + 1;
    }
    FirstNamedSpec(products, want);
  }

  /** `create_product` called on the context's metadata, which an earlier
      call may already have updated: it returns the product the first call
      returned and leaves the metadata as the first call did. */
  method CreateAgain(products: seq<ProductClass>, metadata: Metadata, hostname: Value, current: Metadata)
    returns (r: Option<Instance>, after: Metadata)
    requires current == metadata || current == Touched(products, metadata, hostname)
    ensures r == ProductFor(products, metadata, hostname)
    ensures after == Touched(products, metadata, hostname)
  {
    TouchedKeepsProduct(products, metadata, hostname);
    r, after := CreateProduct(products, current, hostname);
  }
}
