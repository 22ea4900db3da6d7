/** `Context` in insights/core/context.py: the attributes an analysis sees,
    and one slot per registered product, filled from keyword arguments or
    from `create_product`. */
module Contexts {
  import opened Py
  import opened Products
  import opened Registration
  import opened ProductSlots

  /** The keyword arguments of `Context(**kwargs)`, grouped by what they
      hold: `version`, `metadata`, the plain attributes, and the product
      slots keyed by product name. */
  datatype Kwargs = Kwargs(
    version: Option<Value>,
    metadata: Option<Metadata>,
    attrs: map<string, Value>,
    products: map<string, Option<Instance>>)

  /** The attributes every context carries, None unless supplied. */
  const OptionalAttrs: seq<string> :=
    ["content", "path", "hostname", "release",
     "machine_id", "target", "last_client_run", "relative_path"]

  /** `kwargs.pop(k, None)` for one of the optional attributes. */
  function AttrOrNone(kw: Kwargs, k: string): Value
  {
    if k in kw.attrs then kw.attrs[k] else PyNone
  }

  /** `kwargs.pop("metadata", {})`. */
  function MetadataOf(kw: Kwargs): Metadata
  {
    if kw.metadata.Some? then kw.metadata.value else EmptyMetadata
  }

  /** The slot of the first registered name the context has, or None:
      `Context.product()`. */
  function FirstSlot(names: seq<string>, slots: map<string, Option<Instance>>): (r: Option<Instance>)
    ensures (forall i :: 0 <= i < |names| ==> names[i] !in slots) ==> r.None?
    ensures names != [] && names[0] in slots ==> r == slots[names[0]]
  {
    var present := n => n in slots;
    FirstIndexSpec(names, present);
    match FirstIndex(names, present)
    case None => None
    case Some(i) => slots[names[i]]
  }

  /** The loop of `Context.__init__` over GLOBAL_PRODUCTS, as it updates the
      product slots and, through `create_product`, the metadata: a supplied
      keyword argument is popped into its slot; any other slot gets
      `create_product(metadata, hostname)`. A slot holds its keyword
      argument iff the name was supplied and is registered once, and the
      metadata is updated iff `create_product` ran. */
  method FillSlots(products: seq<ProductClass>, supplied: map<string, Option<Instance>>,
                   metadata: Metadata, hostname: Value)
    returns (slots: map<string, Option<Instance>>, after: Metadata)
    ensures slots == SlotsAfter(products, supplied, ProductFor(products, metadata, hostname))
    ensures after == if CreatedAfter(products, supplied) then Touched(products, metadata, hostname) else metadata
  {
    ghost var made, touched := ProductFor(products, metadata, hostname), Touched(products, metadata, hostname);
    var left := supplied;
    slots, after := map[], metadata;
    var i := 0;
    while i < |products|
      invariant 0 <= i <= |products|
      invariant left == LeftAfter(products[..i], supplied)
      invariant slots == SlotsAfter(products[..i], supplied, made)
      invariant after == if CreatedAfter(products[..i], supplied) then touched else metadata
    {
      var name := products[i].Name();
      assert products[..i + 1] == products[..i] + [products[i]];
      AfterStep(products[..i], products[i], supplied, made);
      if name in left {
        slots := slots[name := left[name]];
        left := left - {name};
      } else {
        var r;
        r, after := CreateAgain(products, metadata, hostname, after);
        slots := slots[name := r];
      }
      i := i + 1;
    }
    assert products[..i] == products;
  }

  /** Each of the four product names is registered once. */
  lemma LoadedCount(n: string)
    ensures NameCount([Docker, OSP, RHEV, RHEL], n) == if n in ["docker", "osp", "rhev", "rhel"] then 1 else 0
  {
    NameCountAppend([], Docker, n);
    NameCountAppend([Docker], OSP, n);
    NameCountAppend([Docker, OSP], RHEV, n);
    NameCountAppend([Docker, OSP, RHEV], RHEL, n);
    assert [Docker, OSP, RHEV] + [RHEL] == [Docker, OSP, RHEV, RHEL];
    assert [Docker, OSP] + [RHEV] == [Docker, OSP, RHEV];
    assert [Docker] + [OSP] == [Docker, OSP];
    assert [] + [Docker] == [Docker];
  }

  /** With the products the module registers, each name once: the slots are
      exactly the four names, each holding its keyword argument when one
      was supplied and what `create_product` returns otherwise, and
      `create_product` runs iff some name was not supplied. */
  lemma {:induction false} LoadedSlots(supplied: map<string, Option<Instance>>, made: Option<Instance>)
    ensures forall n :: n in SlotsAfter([Docker, OSP, RHEV, RHEL], supplied, made) <==>
      n in ["docker", "osp", "rhev", "rhel"]
    ensures forall n :: n in SlotsAfter([Docker, OSP, RHEV, RHEL], supplied, made) ==>
      SlotsAfter([Docker, OSP, RHEV, RHEL], supplied, made)[n] == if n in supplied then supplied[n] else made
    ensures CreatedAfter([Docker, OSP, RHEV, RHEL], supplied) <==>
      !("docker" in supplied && "osp" in supplied && "rhev" in supplied && "rhel" in supplied)
  {
    var loaded := [Docker, OSP, RHEV, RHEL];
    forall n ensures NameCount(loaded, n) == if n in ["docker", "osp", "rhev", "rhel"] then 1 else 0 {
      LoadedCount(n);
    }
    SlotsAfterCounts(loaded, supplied, made);
    CreatedAfterIff(loaded, supplied);
  }

  /** With the products the module registers, `Context.product()` is the
      `docker` slot: the `docker` keyword argument when one was supplied,
      otherwise what `create_product` returns. */
  lemma LoadedProduct(supplied: map<string, Option<Instance>>, made: Option<Instance>)
    ensures FirstSlot(["docker", "osp", "rhev", "rhel"], SlotsAfter([Docker, OSP, RHEV, RHEL], supplied, made)) ==
      if "docker" in supplied then supplied["docker"] else made
  {
    LoadedSlots(supplied, made);
  }

  /** The loop of `Context.__init__` over the optional attributes: each one
      is popped from the keyword arguments, None when absent. */
  method CollectAttrs(kw: Kwargs) returns (attrs: map<string, Value>)
    ensures forall k :: k in attrs <==> k in OptionalAttrs
    ensures forall k :: k in attrs ==> attrs[k] == AttrOrNone(kw, k)
  {
    attrs := map[];
    var i := 0;
    while i < |OptionalAttrs|
      invariant 0 <= i <= |OptionalAttrs|
      invariant forall k :: k in attrs <==> k in OptionalAttrs[..i]
      invariant forall k :: k in attrs ==> attrs[k] == AttrOrNone(kw, k)
    {
      var k := OptionalAttrs[i];
      attrs := attrs[k := if k in kw.attrs then kw.attrs[k] else PyNone];
      i := i + 1;
    }
    assert OptionalAttrs[..i] == OptionalAttrs;
  }

  class Context {
    var version: Value
    var metadata: Metadata
    /** The optional attributes, by name. */
    var attrs: map<string, Value>
    /** The product slots `setattr(self, p.name, ...)` fills, by name. */
    var slots: map<string, Option<Instance>>

    /** `self.hostname`. */
    function Hostname(): Value
      reads this
    {
      if "hostname" in attrs then attrs["hostname"] else PyNone
    }

    /** `Context(**kwargs)` with the products registered in `reg`:
        - `version` and `metadata` default to DEFAULT_VERSION and `{}`;
        - every optional attribute is the argument supplied, else None;
        - every registered name has a slot: the keyword argument when the
          name was supplied and is registered once, otherwise what
          `create_product(metadata, hostname)` returns (a name registered
          twice has its argument popped by the first registration and the
          second overwrites the slot);
        - the metadata is as `create_product` leaves it as soon as it ran. */
    constructor(kw: Kwargs, reg: Registry)
      ensures version == (if kw.version.Some? then kw.version.value else DefaultVersion)
      ensures forall k :: k in attrs <==> k in OptionalAttrs
      ensures forall k :: k in attrs ==> attrs[k] == AttrOrNone(kw, k)
      ensures Hostname() == AttrOrNone(kw, "hostname")
      ensures slots == SlotsAfter(reg.products, kw.products, ProductFor(reg.products, MetadataOf(kw), Hostname()))
      ensures metadata ==
        if CreatedAfter(reg.products, kw.products) then Touched(reg.products, MetadataOf(kw), Hostname())
        else MetadataOf(kw)
    {
      version := if kw.version.Some? then kw.version.value else DefaultVersion;
      metadata := MetadataOf(kw);
      attrs := map[];
      slots := map[];
      new;
      attrs := CollectAttrs(kw);
      assert OptionalAttrs[2] == "hostname";
      slots, metadata := FillSlots(reg.products, kw.products, metadata, Hostname());
    }

    /** `Context.product()`: the slot of the first name in PRODUCT_NAMES the
        context has an attribute for, or None. With the module's registry
        this is the `docker` slot (LoadedProduct). */
    method Product(reg: Registry) returns (r: Option<Instance>)
      ensures r == FirstSlot(reg.names, slots)
      ensures reg.names != [] && reg.names[0] in slots ==> r == slots[reg.names[0]]
    {
      var names := reg.names;
      var i := 0;
      while i < |names|
        invariant 0 <= i <= |names|
        invariant forall j :: 0 <= j < i ==> names[j] !in slots
      {
        if names[i] in slots {
          var s := slots;
          FirstIndexUnique(names, n => n in s, i);
          return slots[names[i]];
        }
        i := i + 1;
      }
      return None;
    }
  }

}
