/** The rules by which the loop of `Context.__init__` in
    insights/core/context.py fills one slot per registered product: which
    keyword arguments it pops, what each slot ends up holding, and whether
    `create_product` runs. */
module ProductSlots {
  import opened Py
  import opened Products

  /** How many registered classes carry the name `n`. */
  function NameCount(products: seq<ProductClass>, n: string): nat
    decreases |products|
  {
    if products == [] then 0
    else NameCount(products[..|products| - 1], n) + (if products[|products| - 1].Name() == n then 1 else 0)
  }

  /** A name counts zero times iff no registered class carries it, and never
      more times than there are classes. */
  lemma {:induction false} NameCountBounds(products: seq<ProductClass>, n: string)
    ensures NameCount(products, n) <= |products|
    ensures NameCount(products, n) == 0 <==> forall i :: 0 <= i < |products| ==> products[i].Name() != n
    decreases |products|
  {
    if products != [] {
      var init := products[..|products| - 1];
      NameCountBounds(init, n);
      assert forall i :: 0 <= i < |init| ==> init[i] == products[i];
    }
  }

  /** Every registered product's slot comes from a keyword argument: each
      name was supplied and is registered only once, so `create_product` is
      never called. */
  predicate AllSupplied(products: seq<ProductClass>, supplied: map<string, Option<Instance>>)
  {
    forall i :: 0 <= i < |products| ==>
      products[i].Name() in supplied && NameCount(products, products[i].Name()) == 1
  }

  /** The keyword arguments still unpopped once the loop of
      `Context.__init__` has handled the classes `done`. */
  function LeftAfter(done: seq<ProductClass>, supplied: map<string, Option<Instance>>): map<string, Option<Instance>>
    decreases |done|
  {
    if done == [] then supplied
    else
      var left := LeftAfter(done[..|done| - 1], supplied);
      var name := done[|done| - 1].Name();
      if name in left then left - {name} else left
  }

  /** The product slots once the loop has handled the classes `done`: a
      class whose name is still among the keyword arguments takes that
      argument, any other takes `made`, what `create_product` returns. */
  function SlotsAfter(done: seq<ProductClass>, supplied: map<string, Option<Instance>>, made: Option<Instance>)
    : map<string, Option<Instance>>
    decreases |done|
  {
    if done == [] then map[]
    else
      var left := LeftAfter(done[..|done| - 1], supplied);
      var name := done[|done| - 1].Name();
      SlotsAfter(done[..|done| - 1], supplied, made)[name := if name in left then left[name] else made]
  }

  /** Whether the loop has called `create_product` while handling `done`. */
  predicate CreatedAfter(done: seq<ProductClass>, supplied: map<string, Option<Instance>>)
    decreases |done|
  {
    done != [] &&
    (CreatedAfter(done[..|done| - 1], supplied) ||
     done[|done| - 1].Name() !in LeftAfter(done[..|done| - 1], supplied))
  }

  /** Registering one more class adds one to the count of its own name and
      leaves every other count alone. */
  lemma NameCountAppend(pre: seq<ProductClass>, p: ProductClass, n: string)
    ensures NameCount(pre + [p], n) == NameCount(pre, n) + (if p.Name() == n then 1 else 0)
  {
    assert (pre + [p])[..|pre|] == pre;
  }

  /** A keyword argument is still unpopped iff it was supplied and no class
      handled so far carries its name; it is unchanged. */
  lemma {:induction false} LeftAfterCounts(done: seq<ProductClass>, supplied: map<string, Option<Instance>>)
    ensures forall n :: n in LeftAfter(done, supplied) <==> n in supplied && NameCount(done, n) == 0
    ensures forall n :: n in LeftAfter(done, supplied) ==> LeftAfter(done, supplied)[n] == supplied[n]
    decreases |done|
  {
    if done != [] {
      var pre, p := done[..|done| - 1], done[|done| - 1];
      assert done == pre + [p];
      LeftAfterCounts(pre, supplied);
      forall n ensures NameCount(done, n) == NameCount(pre, n) + (if p.Name() == n then 1 else 0) {
        NameCountAppend(pre, p, n);
      }
    }
  }

  /** The slots are the registered names; a slot holds its keyword argument
      iff the name was supplied and is registered once, and `made`
      otherwise (a second registration overwrites the first). */
  lemma {:induction false} SlotsAfterCounts(done: seq<ProductClass>, supplied: map<string, Option<Instance>>, made: Option<Instance>)
    ensures forall n :: n in SlotsAfter(done, supplied, made) <==> NameCount(done, n) > 0
    ensures forall n :: n in SlotsAfter(done, supplied, made) ==>
      SlotsAfter(done, supplied, made)[n] == if n in supplied && NameCount(done, n) == 1 then supplied[n] else made
    decreases |done|
  {
    if done != [] {
      var pre, p := done[..|done| - 1], done[|done| - 1];
      assert done == pre + [p];
      SlotsAfterCounts(pre, supplied, made);
      LeftAfterCounts(pre, supplied);
      forall n ensures NameCount(done, n) == NameCount(pre, n) + (if p.Name() == n then 1 else 0) {
        NameCountAppend(pre, p, n);
      }
    }
  }

  /** `create_product` has run iff some slot is not filled from a keyword
      argument. */
  lemma {:induction false} CreatedAfterIff(done: seq<ProductClass>, supplied: map<string, Option<Instance>>)
    ensures CreatedAfter(done, supplied) <==> !AllSupplied(done, supplied)
    decreases |done|
  {
    if done != [] {
      var pre, p := done[..|done| - 1], done[|done| - 1];
      assert done == pre + [p];
      CreatedAfterIff(pre, supplied);
      LeftAfterCounts(pre, supplied);
      if p.Name() in supplied && NameCount(pre, p.Name()) == 0 {
        AllSuppliedAppendNew(pre, p, supplied);
      } else {
        AllSuppliedAppendOld(pre, p, supplied);
      }
    }
  }

  /** Registering a class whose name is supplied and new keeps every slot
      supplied exactly when it was before. */
  lemma AllSuppliedAppendNew(pre: seq<ProductClass>, p: ProductClass, supplied: map<string, Option<Instance>>)
    requires p.Name() in supplied && NameCount(pre, p.Name()) == 0
    ensures AllSupplied(pre + [p], supplied) <==> AllSupplied(pre, supplied)
  {
    var post := pre + [p];
    forall j | 0 <= j < |pre|
      ensures post[j] == pre[j] && NameCount(post, pre[j].Name()) == NameCount(pre, pre[j].Name())
    {
      NameCountAppend(pre, p, pre[j].Name());
      NameCountBounds(pre, p.Name());
    }
    NameCountAppend(pre, p, p.Name());
    if AllSupplied(pre, supplied) {
      forall j | 0 <= j < |post|
        ensures post[j].Name() in supplied && NameCount(post, post[j].Name()) == 1
      {
        if j < |pre| {
          assert pre[j].Name() in supplied && NameCount(pre, pre[j].Name()) == 1;
        }
      }
    }
    if AllSupplied(post, supplied) {
      forall j | 0 <= j < |pre|
        ensures pre[j].Name() in supplied && NameCount(pre, pre[j].Name()) == 1
      {
        assert post[j].Name() in supplied && NameCount(post, post[j].Name()) == 1;
      }
    }
  }

  /** Registering a class whose name was not supplied, or was already
      registered, makes `create_product` fill a slot. */
  lemma AllSuppliedAppendOld(pre: seq<ProductClass>, p: ProductClass, supplied: map<string, Option<Instance>>)
    requires !(p.Name() in supplied && NameCount(pre, p.Name()) == 0)
    ensures !AllSupplied(pre + [p], supplied)
  {
    NameCountAppend(pre, p, p.Name());
    assert (pre + [p])[|pre|] == p;
  }

  /** One more class handled: its keyword argument is popped into its slot
      if still there; otherwise its slot is `made` and `create_product` has
      run. */
  lemma AfterStep(done: seq<ProductClass>, p: ProductClass, supplied: map<string, Option<Instance>>, made: Option<Instance>)
    ensures var left := LeftAfter(done, supplied);
      LeftAfter(done + [p], supplied) == (if p.Name() in left then left - {p.Name()} else left) &&
      SlotsAfter(done + [p], supplied, made) ==
        SlotsAfter(done, supplied, made)[p.Name() := if p.Name() in left then left[p.Name()] else made] &&
      (CreatedAfter(done + [p], supplied) <==> CreatedAfter(done, supplied) || p.Name() !in left)
  {
    assert (done + [p])[..|done|] == done;
  }
}
