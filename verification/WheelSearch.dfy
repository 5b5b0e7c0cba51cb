/**
 The downward search of prevPrime, for any test acc that is right on the numbers 6k-1 and 6k+1
 and accepts everything below 25.
 */
module WheelSearch {

  ghost predicate Laws(acc: int -> bool, prime: int -> bool) {
    && (forall m :: m < 25 ==> acc(m))
    && (forall m :: m >= 5 && (m % 6 == 1 || m % 6 == 5) ==> (acc(m) <==> prime(m)))
    && (forall q :: prime(q) && q > 3 ==> q % 6 == 1 || q % 6 == 5)
  }

  // The first number accepted when stepping down by d and 6 - d in turn.
  ghost function Search(acc: int -> bool, m: int, d: int): (r: int)
    requires m >= 25 ==> d == 2 || d == 4
    requires forall n :: n < 25 ==> acc(n)
    ensures acc(r) && r <= m
    decreases if m < 0 then 0 else m
  {
    if acc(m) then m else Search(acc, m - d, 6 - d)
  }

  ghost predicate Largest(prime: int -> bool, n: int, p: int) {
    p <= n && prime(p) && forall q :: p < q <= n ==> !prime(q)
  }

  // In phase, the search visits every number that can be prime.
  lemma {:induction false} InPhase(acc: int -> bool, prime: int -> bool, m: int, d: int)
    requires Laws(acc, prime) && m >= 5 && ((m % 6 == 1 && d == 2) || (m % 6 == 5 && d == 4))
    ensures Largest(prime, m, Search(acc, m, d))
    decreases m
  {
    if !acc(m) {
      InPhase(acc, prime, m - d, 6 - d);
    }
  }

  // No multiple of three between p and m is mistaken for a prime.
  ghost predicate Clear(acc: int -> bool, p: int, m: int) {
    forall t :: p < t < m && t % 6 == 3 ==> !acc(t)
  }

  lemma CloseResidue(p: int, m: int)
    requires m - 6 < p < m
    ensures p % 6 != m % 6
  {}

  lemma ClearStep(acc: int -> bool, p: int, m: int, t: int)
    requires p <= m - 6 < t < m && m % 6 != 3 && t % 6 == 3 && !acc(t)
    ensures Clear(acc, p, m) <==> Clear(acc, p, m - 6)
  {
    forall u | m - 6 < u < m && u % 6 == 3
      ensures u == t
    {}
  }

  // Two steps of the search at most.
  lemma SearchFrom(acc: int -> bool, m: int, d: int)
    requires forall n :: n < 25 ==> acc(n)
    requires m >= 25 && (d == 2 || d == 4) && !acc(m)
    ensures acc(m - d) ==> Search(acc, m, d) == m - d
    ensures !acc(m - d) ==> Search(acc, m, d) == Search(acc, m - 6, d)
  {}

  // Stopping at a multiple of three is wrong, and so is the condition below.
  lemma StopsAtThree(acc: int -> bool, prime: int -> bool, m: int, t: int, p: int)
    requires Laws(acc, prime)
    requires m - 6 < t < m && 3 < t && t % 6 == 3 && acc(t) && p < m && prime(p)
    ensures t != p && !(p % 6 == m % 6 && Clear(acc, p, m))
  {
    if p > t {
      CloseResidue(p, m);
    }
  }

  // Out of phase, every other number visited is a multiple of three.
  lemma {:induction false} OutOfPhase(acc: int -> bool, prime: int -> bool, m: int, d: int, p: int)
    requires Laws(acc, prime) && Largest(prime, m, p)
    requires m >= 5 && ((m % 6 == 1 && d == 4) || (m % 6 == 5 && d == 2))
    ensures Search(acc, m, d) == p <==> p % 6 == m % 6 && Clear(acc, p, m)
    decreases m
  {
    if acc(m) {
      assert p == m;
    } else {
      SearchFrom(acc, m, d);
      var t := m - d;
      assert t % 6 == 3;
      if acc(t) {
        StopsAtThree(acc, prime, m, t, p);
      } else if p <= m - 6 {
        OutOfPhase(acc, prime, m - 6, d, p);
        ClearStep(acc, p, m, t);
      } else {
        CloseResidue(p, m);
      }
    }
  }
}
