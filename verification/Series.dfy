/**
 Undoing y := y + g(y) in a commutative group where x + x = 0, for a linear map g that dies
 out after finitely many applications.
 */
module Series {

  // Names the elements at which the laws below are to be applied.
  predicate At<T>(a: T, b: T, c: T) { true }

  ghost predicate Xorlike<T(!new)>(add: (T, T) -> T, zero: T) {
    forall a, b, c {:trigger At(a, b, c)} :: At(a, b, c) ==>
      && add(a, b) == add(b, a)
      && add(add(a, b), c) == add(a, add(b, c))
      && add(a, zero) == a
      && add(a, a) == zero
  }

  ghost predicate Linear<T(!new)>(add: (T, T) -> T, zero: T, g: T -> T) {
    g(zero) == zero && forall a, b {:trigger At(a, b, b)} :: At(a, b, b) ==> g(add(a, b)) == add(g(a), g(b))
  }

  function Mix<T>(add: (T, T) -> T, g: T -> T, y: T): T { add(y, g(y)) }

  // z + g(z) + g(g(z)) + ..., k terms.
  function Unmix<T>(add: (T, T) -> T, zero: T, g: T -> T, k: nat, z: T): T {
    if k == 0 then zero else add(z, g(Unmix(add, zero, g, k - 1, z)))
  }

  function Iterate<T>(g: T -> T, k: nat, y: T): T {
    if k == 0 then y else g(Iterate(g, k - 1, y))
  }

  lemma MixLinear<T(!new)>(add: (T, T) -> T, zero: T, g: T -> T, a: T, b: T)
    requires Xorlike(add, zero) && Linear(add, zero, g)
    ensures Mix(add, g, add(a, b)) == add(Mix(add, g, a), Mix(add, g, b))
  {
    var x, y := g(a), g(b);
    assert At(a, b, b) && At(a, b, add(x, y)) && At(b, x, y) && At(b, x, x) && At(x, b, y) && At(a, x, add(b, y));
  }

  lemma Cancel<T(!new)>(add: (T, T) -> T, zero: T, a: T, b: T, c: T)
    requires Xorlike(add, zero)
    ensures add(add(a, b), add(b, c)) == add(a, c)
  {
    assert At(a, b, add(b, c)) && At(b, b, c) && At(zero, c, c) && At(c, zero, zero);
  }

  lemma {:induction false} UnmixMix<T(!new)>(add: (T, T) -> T, zero: T, g: T -> T, k: nat, y: T)
    requires Xorlike(add, zero) && Linear(add, zero, g)
    ensures Unmix(add, zero, g, k, Mix(add, g, y)) == add(y, Iterate(g, k, y))
  {
    if k == 0 {
      assert At(y, y, y);
    } else {
      var i := Iterate(g, k - 1, y);
      UnmixMix(add, zero, g, k - 1, y);
      assert At(y, i, i);
      Cancel(add, zero, y, g(y), g(i));
    }
  }

  lemma {:induction false} UnmixNext<T(!new)>(add: (T, T) -> T, zero: T, g: T -> T, k: nat, z: T)
    requires Xorlike(add, zero) && Linear(add, zero, g)
    ensures Unmix(add, zero, g, k + 1, z) == add(Unmix(add, zero, g, k, z), Iterate(g, k, z))
  {
    assert At(z, zero, zero);
    if k > 0 {
      var u, i := Unmix(add, zero, g, k - 1, z), Iterate(g, k - 1, z);
      UnmixNext(add, zero, g, k - 1, z);
      assert At(u, i, i) && At(z, g(u), g(i));
    }
  }

  lemma MixUnmix<T(!new)>(add: (T, T) -> T, zero: T, g: T -> T, k: nat, z: T)
    requires Xorlike(add, zero) && Linear(add, zero, g)
    ensures Mix(add, g, Unmix(add, zero, g, k, z)) == add(z, Iterate(g, k, z))
  {
    var u, i := Unmix(add, zero, g, k, z), Iterate(g, k, z);
    UnmixNext(add, zero, g, k, z);
    // z + g(u) == u + i; add u + z to both sides
    assert At(z, u, u) && At(u, i, i) && At(i, z, z);
    Cancel(add, zero, u, z, g(u));
    Cancel(add, zero, z, u, i);
  }
}
