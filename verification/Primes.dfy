/** Primality by trial division along the 6k-1, 6k+1 wheel, and the search for the previous prime. */
module Primes {
  import opened Bits
  import W = WheelSearch

  predicate IsTimes(n: int, d: int, k: int) { n == d * k }

  ghost predicate Divides(d: int, n: int) {
    exists k :: IsTimes(n, d, k)
  }

  ghost predicate Prime(n: int) {
    n >= 2 && forall d :: 2 <= d < n ==> !Divides(d, n)
  }

  // i and i + 2 are a spoke of the wheel that the loop tries, and one of them divides n.
  ghost predicate Hit(n: int, i: int) {
    i >= 5 && i % 6 == 5 && i * i <= n && (Divides(i, n) || Divides(i + 2, n))
  }

  // What isPrime answers.
  ghost predicate Accepted(n: int) {
    n == 2 || n == 3 || forall i :: !Hit(n, i)
  }

  lemma ModIsDivides(n: nat, d: nat)
    requires d > 0
    ensures n % d == 0 <==> Divides(d, n)
  {
    if n % d == 0 {
      assert IsTimes(n, d, n / d);
    }
    if k :| IsTimes(n, d, k) {
      ModUnique(n, d, k, 0);
    }
  }

  method IsPrime(n: int) returns (b: bool)
    ensures b <==> Accepted(n)
  {
    if n == 2 || n == 3 {
      return true;
    }
    var i := 5;
    while i * i <= n
      invariant i >= 5 && i % 6 == 5 && NoHitBelow(n, i)
      decreases n - i
    {
      ModIsDivides(n, i);
      ModIsDivides(n, i + 2);
      SquareAtLeast(i);
      if n % i == 0 || n % (i + 2) == 0 {
        assert Hit(n, i);
        return false;
      }
      NextSpoke(n, i);
      i := i + 6;
    }
    NoHitBeyond(n, i);
    return true;
  }

  ghost predicate NoHitBelow(n: int, i: int) {
    forall j :: Hit(n, j) ==> j >= i
  }

  lemma NextSpoke(n: int, i: int)
    requires NoHitBelow(n, i) && i % 6 == 5 && !Hit(n, i)
    ensures NoHitBelow(n, i + 6)
  {}

  lemma NoHitBeyond(n: int, i: int)
    requires NoHitBelow(n, i) && i >= 5 && i * i > n
    ensures forall j :: !Hit(n, j)
  {
    forall j
      ensures !Hit(n, j)
    {
      if i <= j {
        SquareMono(i, j);
      }
    }
  }

  lemma SquareAtLeast(i: int)
    requires i >= 1
    ensures i <= i * i
  {}

  lemma SquareMono(a: int, b: int)
    requires 0 <= a <= b
    ensures a * a <= b * b
  {}

  // ---------------------------------------------------------------- when the answer is right

  lemma DividesTrans(a: int, b: int, c: int)
    requires Divides(a, b) && Divides(b, c)
    ensures Divides(a, c)
  {
    var k :| IsTimes(b, a, k);
    var l :| IsTimes(c, b, l);
    MulAssoc(a, k, l);
    assert IsTimes(c, a, k * l);
  }

  // A divisor and its cofactor.
  lemma Cofactor(d: int, n: int) returns (e: int)
    requires n > 0 && d > 0 && Divides(d, n)
    ensures e > 0 && n == d * e && Divides(e, n)
  {
    e :| IsTimes(n, d, e);
    if e <= 0 {
      MulAtLeast(d, e);
      assert false;
    }
    assert IsTimes(n, e, d);
  }

  // The least divisor above 1 of a composite number is prime and at most its square root.
  lemma {:induction false} LeastDivisor(n: int, d: int) returns (p: int)
    requires n > 0 && 2 <= d < n && Divides(d, n)
    ensures 2 <= p <= d && Divides(p, n) && p * p <= n
    ensures Prime(p)
    decreases d
  {
    if smaller :| 2 <= smaller < d && Divides(smaller, n) {
      p := LeastDivisor(n, smaller);
    } else {
      p := d;
      var e := Cofactor(d, n);
      if e < d {
        assert false;
      }
      MulLe(d, d, e);
      forall c | 2 <= c < d
        ensures !Divides(c, d)
      {
        if Divides(c, d) {
          DividesTrans(c, d, n);
          assert false;
        }
      }
    }
  }

  ghost predicate CoprimeTo6(n: int) {
    !Divides(2, n) && !Divides(3, n)
  }

  lemma CoprimeResidues(n: nat)
    ensures CoprimeTo6(n) <==> n % 6 == 1 || n % 6 == 5
  {
    ModIsDivides(n, 2);
    ModIsDivides(n, 3);
    Residues(n);
  }

  lemma Residues(n: nat)
    ensures n % 6 in {1, 5} <==> n % 2 != 0 && n % 3 != 0
  {
    var q, r := n / 6, n % 6;
    SixTimes(q, r);
    ModUnique(n, 2, 3 * q + r / 2, r % 2);
    ModUnique(n, 3, 2 * q + r / 3, r % 3);
  }

  lemma SixTimes(q: nat, r: nat)
    ensures 6 * q + r == 2 * (3 * q + r / 2) + r % 2 == 3 * (2 * q + r / 3) + r % 3
  {}

  lemma CoprimeDivisor(d: int, n: int)
    requires Divides(d, n) && CoprimeTo6(n)
    ensures CoprimeTo6(d)
  {
    if Divides(2, d) {
      DividesTrans(2, d, n);
      assert false;
    }
    if Divides(3, d) {
      DividesTrans(3, d, n);
      assert false;
    }
  }

  // A divisor p >= 5 off the 2s and 3s is found on its spoke, provided the loop gets that far.
  lemma FoundOnSpoke(n: int, p: int)
    requires p >= 5 && Divides(p, n) && (p % 6 == 5 || p % 6 == 1) && p * p <= n
    ensures exists i :: Hit(n, i)
  {
    if p % 6 == 5 {
      assert Hit(n, p);
    } else {
      SquareMono(p - 2, p);
      assert Hit(n, p - 2);
    }
  }

  lemma FiveTimes(i: int)
    requires i >= 5
    ensures 5 * i <= i * i
  {}

  lemma HitIsComposite(n: int, i: int)
    requires Hit(n, i)
    ensures !Prime(n)
  {
    FiveTimes(i);
  }

  /** For every n >= 5 without factor 2 or 3, isPrime answers correctly. */
  lemma RightOffTwosAndThrees(n: int)
    requires n >= 5 && CoprimeTo6(n)
    ensures Accepted(n) <==> Prime(n)
  {
    if i :| Hit(n, i) {
      HitIsComposite(n, i);
    } else if d :| 2 <= d < n && Divides(d, n) {
      var p := LeastDivisor(n, d);
      CoprimeDivisor(p, n);
      CoprimeResidues(p);
      FoundOnSpoke(n, p);
    }
  }

  lemma SmallAccepted(n: int)
    requires n < 25
    ensures Accepted(n)
  {
    forall i
      ensures !Hit(n, i)
    {
      if i >= 5 {
        SquareMono(5, i);
      }
    }
  }

  lemma PrimesAreCoprime(n: int)
    requires Prime(n) && n > 3
    ensures CoprimeTo6(n)
  {}

  // n has a prime factor >= 5 that is not much above its square root.
  ghost predicate NearFactor(n: int, q: int) {
    q >= 5 && Prime(q) && Divides(q, n) && (q * q <= n || (q % 6 == 1 && (q - 2) * (q - 2) <= n))
  }

  ghost predicate HasNearFactor(n: int) {
    exists q :: NearFactor(n, q)
  }

  lemma HitMeansFactor(n: int, i: int) returns (q: int)
    requires Hit(n, i)
    ensures NearFactor(n, q)
  {
    if Divides(i, n) {
      q := PrimeFactorOffSix(i);
      SquareMono(q, i);
      DividesTrans(q, i, n);
    } else {
      q := PrimeFactorOffSix(i + 2);
      DividesTrans(q, i + 2, n);
      if q != i + 2 {
        FiveTimes(i);
      }
    }
  }

  lemma PrimeFactorOffSix(d: nat) returns (q: int)
    requires d >= 5 && (d % 6 == 5 || d % 6 == 1)
    ensures 5 <= q <= d && Prime(q) && Divides(q, d) && (q == d || q * q <= d)
  {
    CoprimeResidues(d);
    if e :| 2 <= e < d && Divides(e, d) {
      q := LeastDivisor(d, e);
      CoprimeDivisor(q, d);
      CoprimeResidues(q);
    } else {
      q := d;
      assert IsTimes(d, d, 1);
    }
  }

  lemma FactorMeansHit(n: int, q: int)
    requires NearFactor(n, q)
    ensures exists i :: Hit(n, i)
  {
    PrimesAreCoprime(q);
    CoprimeResidues(q);
    if q % 6 == 5 {
      assert Hit(n, q);
    } else {
      SquareMono(q - 2, q);
      assert Hit(n, q - 2);
    }
  }

  /** The exact set of numbers that isPrime gets right.  Below 2 it is always wrong, and a larger
      multiple of 2 or 3 is recognised as composite only by another prime factor near its root. */
  lemma RightIff(n: int)
    ensures (Accepted(n) <==> Prime(n)) <==>
            n == 2 || n == 3 || (n >= 5 && CoprimeTo6(n)) || HasNearFactor(n)
  {
    if i :| Hit(n, i) {
      HitIsComposite(n, i);
      var q := HitMeansFactor(n, i);
    }
    if q :| NearFactor(n, q) {
      FactorMeansHit(n, q);
    }
    if n >= 5 && CoprimeTo6(n) {
      RightOffTwosAndThrees(n);
    } else if Prime(n) && n > 3 {
      PrimesAreCoprime(n);
      FourIsNotPrime();
      assert false;
    }
    TwoAndThree();
  }

  lemma TwoAndThree()
    ensures Prime(2) && Prime(3)
  {
    ModIsDivides(3, 2);
  }

  lemma FourIsNotPrime()
    ensures !Prime(4)
  {
    ModIsDivides(4, 2);
  }

  // ---------------------------------------------------------------- the previous prime

  // C's remainder takes the sign of its left operand.
  function CRem(n: int, m: int): int
    requires m > 0
  {
    if n >= 0 then n % m else -((-n) % m)
  }

  // The first number tried and the first step down.
  function FirstTry(n: int): (int, int) {
    var m := if n % 2 == 0 then n - 1 else n;
    var d := CRem(m, 3);
    if d == 0 then (m - 2, 2) else if d == 1 then (m, 4) else (m, d)
  }

  ghost const ACCEPTED: int -> bool := n => Accepted(n)
  ghost const PRIME: int -> bool := n => Prime(n)

  lemma SearchLaws()
    ensures W.Laws(ACCEPTED, PRIME)
  {
    forall m | m < 25
      ensures ACCEPTED(m)
    {
      SmallAccepted(m);
    }
    forall m | m >= 5 && (m % 6 == 1 || m % 6 == 5)
      ensures ACCEPTED(m) <==> PRIME(m)
    {
      CoprimeResidues(m);
      RightOffTwosAndThrees(m);
    }
    forall q | PRIME(q) && q > 3
      ensures q % 6 == 1 || q % 6 == 5
    {
      PrimesAreCoprime(q);
      CoprimeResidues(q);
    }
  }

  // What prevPrime returns.
  ghost function Previous(n: int): int {
    SearchLaws();
    W.Search(ACCEPTED, FirstTry(n).0, FirstTry(n).1)
  }

  method PrevPrime(n0: int) returns (n: int)
    ensures n == Previous(n0)
  {
    SearchLaws();
    n := n0;
    if n % 2 == 0 {
      n := n - 1;
    }
    var decr := CRem(n, 3);
    if decr == 0 {
      n := n - 2;
      decr := 2;
    } else if decr == 1 {
      decr := 4;
    }
    while true
      invariant n >= 25 ==> decr == 2 || decr == 4
      invariant W.Search(ACCEPTED, n, decr) == Previous(n0)
      decreases n
    {
      var found := IsPrime(n);
      assert found == ACCEPTED(n);
      if found {
        return;
      }
      n := n - decr;
      decr := 6 - decr;
    }
  }

  // No multiple of three between p and m is mistaken for a prime.
  ghost predicate NoneMistaken(p: int, m: int) {
    forall t :: p < t < m && t % 6 == 3 ==> HasNearFactor(t)
  }

  lemma RejectedIff(n: int)
    requires n > 3
    ensures !Accepted(n) <==> HasNearFactor(n)
  {
    if i :| Hit(n, i) {
      var q := HitMeansFactor(n, i);
    }
    if q :| NearFactor(n, q) {
      FactorMeansHit(n, q);
    }
  }

  lemma ClearIff(p: int, m: int)
    requires p >= 3
    ensures W.Clear(ACCEPTED, p, m) <==> NoneMistaken(p, m)
  {
    forall t | p < t < m && t % 6 == 3
      ensures !ACCEPTED(t) <==> HasNearFactor(t)
    {
      RejectedIff(t);
    }
  }

  // From 5 on.
  lemma PreviousFrom5(n: int, p: int)
    requires n >= 5 && W.Largest(PRIME, n, p)
    ensures Previous(n) == p <==>
            n % 6 == 3 || n % 6 == 4 ||
            (p % 6 == FirstTry(n).0 % 6 && W.Clear(ACCEPTED, p, FirstTry(n).0))
  {
    SearchLaws();
    FirstTryIs(n);
    var (m, d) := FirstTry(n);
    LargestAtFirstTry(n, m, p);
    if n % 6 == 3 || n % 6 == 4 {
      W.InPhase(ACCEPTED, PRIME, m, d);
    } else {
      W.OutOfPhase(ACCEPTED, PRIME, m, d, p);
    }
  }

  // Below 5 the search starts and ends at 1.
  lemma PreviousBelow5(n: int)
    requires 2 <= n < 5
    ensures Previous(n) == 1
  {
    SearchLaws();
    SmallAccepted(1);
    assert FirstTry(n).0 == 1;
    assert ACCEPTED(1);
  }

  lemma LargestIsAtLeast3(n: int, p: int)
    requires n >= 5 && W.Largest(PRIME, n, p)
    ensures p >= 3
  {
    TwoAndThree();
    assert PRIME(3);
  }

  /** prevPrime(n), for every n whose largest prime below or at n is p: right from 5 on whenever the
      search starts in phase, that is for n % 6 in {3, 4}; otherwise right if and only if p lies in
      the residue class the search visits and every multiple of three above p has another prime
      factor near its root.  Below 5 it is never right. */
  lemma PrevPrimeRightIff(n: int, p: int)
    requires W.Largest(PRIME, n, p)
    ensures Previous(n) == p <==>
            n >= 5 && (n % 6 == 3 || n % 6 == 4 || (p % 6 == FirstTry(n).0 % 6 && NoneMistaken(p, FirstTry(n).0)))
  {
    assert p >= 2;
    if n < 5 {
      PreviousBelow5(n);
    } else {
      LargestIsAtLeast3(n, p);
      ClearIff(p, FirstTry(n).0);
      PreviousFrom5(n, p);
    }
  }

  lemma FirstTryIs(n: int)
    requires n >= 5
    ensures FirstTry(n) ==
      match n % 6
      case 0 => (n - 1, 2)
      case 1 => (n, 4)
      case 2 => (n - 1, 4)
      case 3 => (n - 2, 2)
      case 4 => (n - 3, 2)
      case _ => (n, 2)
    ensures FirstTry(n).0 >= 5 && FirstTry(n).0 % 6 in {1, 5}
  {}

  // The numbers skipped before the first try are not prime.
  lemma LargestAtFirstTry(n: int, m: int, p: int)
    requires n >= 5 && m == FirstTry(n).0 && W.Laws(ACCEPTED, PRIME) && W.Largest(PRIME, n, p)
    ensures W.Largest(PRIME, m, p)
  {
    FirstTryIs(n);
    assert PRIME(p) ==> p <= 3 || p % 6 == 1 || p % 6 == 5;
  }

  // Out of phase it does go wrong: 35 = 5 * 7 is rejected, 33 = 3 * 11 is not.
  lemma ThirtyFive()
    ensures Previous(35) == 33 && !Prime(33)
  {
    SearchLaws();
    ModIsDivides(35, 5);
    assert Hit(35, 5);
    ThirtyThree();
    assert !ACCEPTED(35) && ACCEPTED(33);
    W.SearchFrom(ACCEPTED, 35, 2);
  }

  lemma ThirtyThree()
    ensures Accepted(33) && !Prime(33)
  {
    ModIsDivides(33, 3);
    ModIsDivides(33, 5);
    ModIsDivides(33, 7);
    forall i
      ensures !Hit(33, i)
    {
      if i >= 11 {
        SquareMono(11, i);
      }
    }
  }
}
