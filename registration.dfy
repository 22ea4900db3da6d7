/** The module-level registries of insights/core/context.py:
    `GLOBAL_PRODUCTS` and `PRODUCT_NAMES`, filled by the `@product`
    decorator, and `FSRoots`, filled by `@fs_root`. */
module Registration {
  import opened Py
  import opened Products
  import opened Execution

  /** The three module-level lists, as one object whose fields the
      decorators update in place. */
  class Registry {
    /** `GLOBAL_PRODUCTS`. */
    var products: seq<ProductClass>
    /** `PRODUCT_NAMES`. */
    var names: seq<string>
    /** `FSRoots`. */
    var fsRoots: seq<ContextClass>

    /** `PRODUCT_NAMES` holds, position by position, the names of the classes
        in `GLOBAL_PRODUCTS`. */
    ghost predicate Valid()
      reads this
    {
      |names| == |products| &&
      forall i :: 0 <= i < |products| ==> names[i] == products[i].Name()
    }

    /** The three lists before any class is decorated. */
    constructor()
      ensures Valid()
      ensures products == [] && names == [] && fsRoots == []
    {
      products, names, fsRoots := [], [], [];
    }

    /** The lists once the module is imported: the decorators ran in the
        order the classes are defined. */
    constructor Loaded()
      ensures Valid()
      ensures products == [Docker, OSP, RHEV, RHEL]
      ensures names == ["docker", "osp", "rhev", "rhel"]
      ensures fsRoots == [HostContext, HostArchiveContext, SosArchiveContext,
                          ClusterArchiveContext, DockerImageContext, JBossContext, JDRContext]
    {
      products, names, fsRoots := [], [], [];
      new;
      DecorateProducts();
      DecorateFsRoots();
    }

    /** The `@product` decorations of the module, in definition order. */
    method DecorateProducts()
      requires Valid()
      modifies this
      ensures Valid()
      ensures products == old(products) + [Docker, OSP, RHEV, RHEL]
      ensures names == old(names) + ["docker", "osp", "rhev", "rhel"]
      ensures fsRoots == old(fsRoots)
    {
      var k := Product(Docker);
      k := Product(OSP);
      k := Product(RHEV);
      k := Product(RHEL);
    }

    /** The `@fs_root` decorations of the module, in definition order. */
    method DecorateFsRoots()
      modifies this
      ensures fsRoots == old(fsRoots) + [HostContext, HostArchiveContext, SosArchiveContext,
                                         ClusterArchiveContext, DockerImageContext, JBossContext, JDRContext]
      ensures products == old(products) && names == old(names)
    {
      var c := FsRoot(HostContext);
      c := FsRoot(HostArchiveContext);
      c := FsRoot(SosArchiveContext);
      c := FsRoot(ClusterArchiveContext);
      c := FsRoot(DockerImageContext);
      c := FsRoot(JBossContext);
      c := FsRoot(JDRContext);
    }

    /** `@product`: appends the class to `GLOBAL_PRODUCTS` and its name to
        `PRODUCT_NAMES`, and hands the class back unchanged; the two lists
        stay aligned. */
    method Product(klass: ProductClass) returns (r: ProductClass)
      requires Valid()
      modifies this
      ensures Valid()
      ensures r == klass
      ensures products == old(products) + [klass]
      ensures names == old(names) + [klass.Name()]
      ensures fsRoots == old(fsRoots)
    {
      products := products + [klass];
      names := names + [klass.Name()];
      return klass;
    }

    /** `@fs_root`: appends the class to `FSRoots` and hands it back
        unchanged. */
    method FsRoot(thing: ContextClass) returns (r: ContextClass)
      modifies this
      ensures r == thing
      ensures fsRoots == old(fsRoots) + [thing]
      ensures products == old(products) && names == old(names)
    {
      fsRoots := fsRoots + [thing];
      return thing;
    }
  }

  /** In a registry whose lists are aligned, the first registered name equal
      to `n` sits at the position of the first registered class named `n`. */
  lemma NamesAligned(reg: Registry, n: string)
    requires reg.Valid()
    ensures FirstIndex(reg.names, (x: string) => x == n) == FirstNamed(reg.products, n)
  {
    var names, products := reg.names, reg.products;
    var p := (x: string) => x == n;
    var q := (c: ProductClass) => c.Name() == n;
    assert forall i :: 0 <= i < |products| ==> (p(names[i]) <==> q(products[i]));
    FirstNamedSpec(products, n);
    FirstIndexSpec(names, p);
    match FirstNamed(products, n)
    case None =>
    case Some(k) =>
      FirstIndexUnique(names, p, k);
  }
}
