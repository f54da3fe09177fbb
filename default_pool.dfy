/**
 * The built-in ("default") painting pool: every registered painting variant,
 * grouped by its size into lists that keep registry order.
 */
module DefaultPool {
  import opened JavaInt

  /** A width/height pair, compared by value. */
  datatype Vec2i = Vec2i(x: int32, y: int32)

  /** A registered painting variant: its registry key and its size in pixels. */
  datatype PaintingVariant = PaintingVariant(id: string, width: int32, height: int32)

  function SizeOf(v: PaintingVariant): Vec2i
  {
    Vec2i(v.width, v.height)
  }

  /** One step of the grouping: make sure `v`'s size has a list, then append `v` to it. */
  function Add(pool: map<Vec2i, seq<PaintingVariant>>, v: PaintingVariant): map<Vec2i, seq<PaintingVariant>>
  {
    var size := SizeOf(v);
    var list := if size in pool then pool[size] else [];
    pool[size := list + [v]]
  }

  /** The pool built from a registry, one entry at a time in registry order. */
  function Grouped(registry: seq<PaintingVariant>): (r: map<Vec2i, seq<PaintingVariant>>)
    ensures forall size :: size in r ==> r[size] != []
    ensures forall v :: v in registry ==> SizeOf(v) in r && v in r[SizeOf(v)]
  {
    if registry == [] then map[]
    else Add(Grouped(registry[..|registry| - 1]), registry[|registry| - 1])
  }

  /** The registry entries of one size, in registry order. */
  function OfSize(registry: seq<PaintingVariant>, size: Vec2i): (r: seq<PaintingVariant>)
    ensures |r| <= |registry|
    ensures forall v :: v in r <==> v in registry && SizeOf(v) == size
  {
    if registry == [] then []
    else
      var last := registry[|registry| - 1];
      OfSize(registry[..|registry| - 1], size) + (if SizeOf(last) == size then [last] else [])
  }

  /**
   * Filtering a concatenation filters each part: the list of a size keeps every registry
   * entry of that size, each as often as it occurs, in registry order.
   */
  lemma {:induction false} OfSizeAppend(a: seq<PaintingVariant>, b: seq<PaintingVariant>, size: Vec2i)
    ensures OfSize(a + b, size) == OfSize(a, size) + OfSize(b, size)
  {
    if b == [] {
      assert a + b == a;
    } else {
      var init := b[..|b| - 1];
      var last := b[|b| - 1];
      var tail := if SizeOf(last) == size then [last] else [];
      OfSizeAppend(a, init, size);
      assert (a + b)[..|a + b| - 1] == a + init;
      assert (a + b)[|a + b| - 1] == last;
      calc {
        OfSize(a + b, size);
        OfSize(a + init, size) + tail;
        OfSize(a, size) + OfSize(init, size) + tail;
        OfSize(a, size) + (OfSize(init, size) + tail);
        OfSize(a, size) + OfSize(b, size);
      }
    }
  }

  /** The distinct sizes occurring in a registry, in order of first appearance. */
  function Sizes(registry: seq<PaintingVariant>): (r: seq<Vec2i>)
    ensures forall i, j :: 0 <= i < j < |r| ==> r[i] != r[j]
    ensures forall v :: v in registry ==> SizeOf(v) in r
    ensures forall s :: s in r ==> exists v :: v in registry && SizeOf(v) == s
  {
    if registry == [] then []
    else
      var prefix := Sizes(registry[..|registry| - 1]);
      var size := SizeOf(registry[|registry| - 1]);
      if size in prefix then prefix else prefix + [size]
  }

  /** The sum of the lengths of the lists of `pool` at the given sizes. */
  function TotalLength(pool: map<Vec2i, seq<PaintingVariant>>, sizes: seq<Vec2i>): nat
    requires forall s :: s in sizes ==> s in pool
  {
    if sizes == [] then 0
    else TotalLength(pool, sizes[..|sizes| - 1]) + |pool[sizes[|sizes| - 1]]|
  }

  /**
   * The grouping loop of the manager's constructor: for each registry entry, create the
   * list of its size if there is none yet, then append the entry to that list.
   */
  method GroupBySize(registry: seq<PaintingVariant>) returns (pool: map<Vec2i, seq<PaintingVariant>>)
    ensures pool == Grouped(registry)
    ensures forall size :: size in pool ==> pool[size] == OfSize(registry, size) && pool[size] != []
    ensures forall v :: v in registry ==> SizeOf(v) in pool && v in pool[SizeOf(v)]
    ensures forall s :: s in Sizes(registry) <==> s in pool
    ensures TotalLength(pool, Sizes(registry)) == |registry|
  {
    pool := map[];
    for i := 0 to |registry|
      invariant pool == Grouped(registry[..i])
    {
      var v := registry[i];
      var size := SizeOf(v);
      ghost var before := pool;
      if size !in pool {
        pool := pool[size := []];
      }
      pool := pool[size := pool[size] + [v]];
      assert pool == Add(before, v);
      assert registry[..i + 1][..i] == registry[..i];
      assert Grouped(registry[..i + 1]) == Add(Grouped(registry[..i]), v);
    }
    assert registry[..|registry|] == registry;
    GroupedContents(registry);
    SizesAreKeys(registry);
    GroupedTotal(registry);
  }

  /**
   * The list kept for a size holds exactly the registry entries of that size, in registry
   * order, and a size has a list exactly when some entry has that size.
   */
  lemma {:induction false} GroupedContents(registry: seq<PaintingVariant>)
    ensures forall size :: size in Grouped(registry) <==> OfSize(registry, size) != []
    ensures forall size :: size in Grouped(registry) ==> Grouped(registry)[size] == OfSize(registry, size)
  {
    if registry != [] {
      GroupedContents(registry[..|registry| - 1]);
    }
  }

  /** The sizes of the registry are exactly the keys of the pool. */
  lemma {:induction false} SizesAreKeys(registry: seq<PaintingVariant>)
    ensures forall s :: s in Sizes(registry) <==> s in Grouped(registry)
  {
    if registry != [] {
      SizesAreKeys(registry[..|registry| - 1]);
    }
  }

  /** Summing over sizes that do not include `s` ignores what the pool holds at `s`. */
  lemma {:induction false} TotalLengthFrame(pool: map<Vec2i, seq<PaintingVariant>>, sizes: seq<Vec2i>, s: Vec2i, list: seq<PaintingVariant>)
    requires forall t :: t in sizes ==> t in pool
    requires s !in sizes
    ensures TotalLength(pool[s := list], sizes) == TotalLength(pool, sizes)
  {
    if sizes != [] {
      TotalLengthFrame(pool, sizes[..|sizes| - 1], s, list);
    }
  }

  /** Appending one entry to the list at a size that occurs once in `sizes` adds one to the total. */
  lemma {:induction false} TotalLengthBump(pool: map<Vec2i, seq<PaintingVariant>>, sizes: seq<Vec2i>, s: Vec2i, v: PaintingVariant)
    requires forall t :: t in sizes ==> t in pool
    requires forall i, j :: 0 <= i < j < |sizes| ==> sizes[i] != sizes[j]
    requires s in sizes
    ensures TotalLength(pool[s := pool[s] + [v]], sizes) == TotalLength(pool, sizes) + 1
  {
    var prefix := sizes[..|sizes| - 1];
    if sizes[|sizes| - 1] == s {
      assert s !in prefix;
      TotalLengthFrame(pool, prefix, s, pool[s] + [v]);
    } else {
      TotalLengthBump(pool, prefix, s, v);
    }
  }

  /** Every registry entry lands in exactly one list: the list lengths add up to the registry size. */
  lemma {:induction false} GroupedTotal(registry: seq<PaintingVariant>)
    ensures forall s :: s in Sizes(registry) ==> s in Grouped(registry)
    ensures TotalLength(Grouped(registry), Sizes(registry)) == |registry|
  {
    SizesAreKeys(registry);
    if registry != [] {
      var prefix := registry[..|registry| - 1];
      var v := registry[|registry| - 1];
      var size := SizeOf(v);
      var pool := Grouped(prefix);
      var sizes := Sizes(prefix);
      GroupedTotal(prefix);
      SizesAreKeys(prefix);
      assert Grouped(registry) == Add(pool, v);
      if size in sizes {
        assert Sizes(registry) == sizes;
        assert Add(pool, v) == pool[size := pool[size] + [v]];
        TotalLengthBump(pool, sizes, size, v);
      } else {
        assert Sizes(registry) == sizes + [size];
        assert size !in pool;
        assert [] + [v] == [v];
        assert Add(pool, v) == pool[size := [v]];
        TotalLengthFrame(pool, sizes, size, [v]);
        assert (sizes + [size])[..|sizes|] == sizes;
      }
    }
  }
}
