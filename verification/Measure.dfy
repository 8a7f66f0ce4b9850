/** Scores and their order (fuzzer/measure.cpp), in exact arithmetic: the square root and the weights are not
    rounded. A score has two 32-bit parts. */
module Measure {
  import opened Words

  const U32 := 0x1_0000_0000

  type Part = x: int | 0 <= x < U32

  datatype Score = Score(absolute: Part, diff: Part)

  // ---------------------------------------------------------------- the norm

  /** Ten times the square of the norm before rounding up. */
  function Target(absolute: nat, diff: nat): nat { absolute * absolute + 9 * (diff * diff) }

  /** The smallest root, from n on, whose tenfold square reaches t. */
  function RootFrom(t: nat, n: nat): nat
    decreases if 10 * (n * n) >= t then 0 else t - n + 1
  {
    if 10 * (n * n) >= t then n
    else (Above(n); RootFrom(t, n + 1))
  }

  lemma {:induction false} RootFromBounds(t: nat, n: nat)
    ensures var r := RootFrom(t, n); n <= r && 10 * (r * r) >= t && (r > n ==> 10 * ((r - 1) * (r - 1)) < t)
    decreases if 10 * (n * n) >= t then 0 else t - n + 1
  {
    if 10 * (n * n) < t {
      Above(n);
      RootFromBounds(t, n + 1);
    }
  }

  lemma Above(n: nat)
    ensures n <= n * n
  {
    if n > 0 { Multiple(n, n); }
  }

  function NormOf(absolute: nat, diff: nat): nat {
    if absolute == 0 && diff == 0 then 0 else RootFrom(Target(absolute, diff), 0)
  }

  function Norm(s: Score): nat { NormOf(s.absolute, s.diff) }

  lemma Squares(x: nat, y: nat)
    ensures x <= y <==> x * x <= y * y
  {
    if x <= y {
      Ordered(x, y, x, y);
    } else {
      Ordered(y + 1, x, y + 1, x);
      assert (y + 1) * (y + 1) == y * y + y + y + 1;
    }
  }

  lemma Ordered(a: nat, b: nat, c: nat, d: nat)
    requires a <= b && c <= d
    ensures a * c <= b * d
  {
    assert b * d == a * c + a * (d - c) + (b - a) * d;
  }

  lemma RootReaches(absolute: nat, diff: nat, n: nat)
    ensures NormOf(absolute, diff) <= n <==> 10 * (n * n) >= Target(absolute, diff)
  {
    hide RootFrom;
    var r, t := NormOf(absolute, diff), Target(absolute, diff);
    RootFromBounds(t, 0);
    assert 10 * (r * r) >= t && (r > 0 ==> 10 * ((r - 1) * (r - 1)) < t);
    hide Target, NormOf;
    if r <= n { Squares(r, n); } else { Squares(n, r - 1); }
  }

  /** The norm is the least n whose tenfold square reaches abs^2 + 9 diff^2. */
  lemma NormIsLeast(absolute: nat, diff: nat, n: nat)
    ensures NormOf(absolute, diff) <= n <==> 10 * (n * n) >= absolute * absolute + 9 * (diff * diff)
  {
    hide NormOf;
    RootReaches(absolute, diff, n);
  }

  lemma ExactNorm(a: nat, d: nat, n: nat)
    requires a * a + 9 * (d * d) == 10 * (n * n)
    ensures NormOf(a, d) == n
  {
    hide NormOf;
    var r := NormOf(a, d);
    NormIsLeast(a, d, n);
    NormIsLeast(a, d, r);
    Squares(n, r);
  }

  /** Multiples of scores whose norm is exact: the parts weigh 1 and 9 out of 10. */
  lemma ExactNorms(k: nat)
    ensures NormOf(k, k) == k && NormOf(13 * k, 3 * k) == 5 * k
  {
    hide NormOf;
    ExactNorm(k, k, k);
    assert (13 * k) * (13 * k) == 169 * (k * k) && (3 * k) * (3 * k) == 9 * (k * k) && (5 * k) * (5 * k) == 25 * (k * k);
    ExactNorm(13 * k, 3 * k, 5 * k);
  }

  lemma ZeroOnlyAtZero(s: Score)
    ensures Norm(s) == 0 <==> s == Score(0, 0)
  {
    RootReaches(s.absolute, s.diff, 0);
    Above(s.absolute);
    Above(s.diff);
  }

  lemma TargetMonotone(a: nat, d: nat, a': nat, d': nat)
    requires a <= a' && d <= d'
    ensures Target(a, d) <= Target(a', d')
  {
    Squares(a, a');
    Squares(d, d');
  }

  lemma NormMonotone(a: nat, d: nat, a': nat, d': nat)
    requires a <= a' && d <= d'
    ensures NormOf(a, d) <= NormOf(a', d')
  {
    RootReaches(a', d', NormOf(a', d'));
    TargetMonotone(a, d, a', d');
    RootReaches(a, d, NormOf(a', d'));
  }

  lemma NormAtMostMax(a: nat, d: nat)
    ensures NormOf(a, d) <= if a > d then a else d
  {
    var m := if a > d then a else d;
    TargetMonotone(a, d, m, m);
    RootReaches(a, d, m);
  }

  /** Cauchy and Schwarz, for the weights 1 and 9. */
  lemma Cauchy(a: nat, d: nat, b: nat, e: nat)
    ensures (a * b + 9 * (d * e)) * (a * b + 9 * (d * e)) <= Target(a, d) * Target(b, e)
  {
    Expand(a * a, d * d, b * b, e * e);
    SquareOfProduct(a, b);
    SquareOfProduct(d, e);
    SquareOfProduct(a, e);
    SquareOfProduct(d, b);
    Cross(a, e, d, b);
    TwoProducts(a * b, d * e, a * e, d * b);
  }

  lemma TwoProducts(p: nat, q: nat, r: nat, s: nat)
    requires r * s == p * q
    ensures (p + 9 * q) * (p + 9 * q) <= p * p + 81 * (q * q) + 9 * (r * r) + 9 * (s * s)
  {
    SquareOfSum(p, 9 * q);
    Nines(p, q);
    TwiceTheProduct(r, s);
  }

  lemma Nines(p: nat, q: nat)
    ensures p * (9 * q) == 9 * (p * q) && (9 * q) * (9 * q) == 81 * (q * q)
  {
  }

  lemma TwiceTheProduct(r: nat, s: nat)
    ensures 2 * (r * s) <= r * r + s * s
  {
    if r <= s { SquareOfSum(r, s - r); Distribute(r, s - r, r); } else { SquareOfSum(s, r - s); Distribute(s, r - s, s); }
  }

  lemma Expand(x: nat, y: nat, z: nat, w: nat)
    ensures (x + 9 * y) * (z + 9 * w) == x * z + 9 * (x * w) + 9 * (y * z) + 81 * (y * w)
  {
  }

  lemma SquareOfProduct(x: nat, y: nat)
    ensures (x * y) * (x * y) == (x * x) * (y * y)
  {
    assert (x * y) * (x * y) == x * (y * (x * y)) == x * (x * (y * y)) == (x * x) * (y * y);
  }

  lemma Cross(a: nat, e: nat, d: nat, b: nat)
    ensures (a * e) * (d * b) == (a * b) * (d * e)
  {
    assert (a * e) * (d * b) == a * (e * (d * b)) == a * (b * (d * e)) == (a * b) * (d * e);
  }

  /** The cross term of the two squares is at most ten times the product of the roots. */
  lemma CrossTerm(a: nat, d: nat, b: nat, e: nat, n: nat, m: nat)
    requires Target(a, d) <= 10 * (n * n) && Target(b, e) <= 10 * (m * m)
    ensures a * b + 9 * (d * e) <= 10 * (n * m)
  {
    hide Target;
    Cauchy(a, d, b, e);
    Ordered(Target(a, d), 10 * (n * n), Target(b, e), 10 * (m * m));
    TenTimes(n, m);
    Squares(a * b + 9 * (d * e), 10 * (n * m));
  }

  lemma SquareOfSum(x: nat, y: nat)
    ensures (x + y) * (x + y) == x * x + y * y + 2 * (x * y)
  {
  }

  lemma TargetOfSum(a: nat, d: nat, b: nat, e: nat)
    ensures Target(a + b, d + e) == Target(a, d) + Target(b, e) + 2 * (a * b + 9 * (d * e))
  {
    SquareOfSum(a, b);
    SquareOfSum(d, e);
  }

  lemma NormSubadditive(a: nat, d: nat, b: nat, e: nat)
    ensures NormOf(a + b, d + e) <= NormOf(a, d) + NormOf(b, e)
  {
    hide NormOf, Target;
    var n, m := NormOf(a, d), NormOf(b, e);
    RootReaches(a, d, n);
    RootReaches(b, e, m);
    CrossTerm(a, d, b, e, n, m);
    TargetOfSum(a, d, b, e);
    SquareOfSum(n, m);
    RootReaches(a + b, d + e, n + m);
  }

  lemma TenTimes(n: nat, m: nat)
    ensures (10 * (n * n)) * (10 * (m * m)) == (10 * (n * m)) * (10 * (n * m))
  {
    SquareOfProduct(n, m);
  }

  // ---------------------------------------------------------------- the order

  datatype Measure = Measure(goal: Score, edge: Score, length: nat)

  /** Ten times the weighted norm. */
  function Weight(m: Measure): nat { 3 * Norm(m.edge) + 7 * Norm(m.goal) }

  /** operator<: among equal weights the longer input is the smaller. */
  predicate Less(a: Measure, b: Measure) {
    if Weight(a) == Weight(b) then a.length > b.length else Weight(a) < Weight(b)
  }

  predicate Equivalent(a: Measure, b: Measure) { !Less(a, b) && !Less(b, a) }

  /** operator>, as the source defines it. */
  predicate Greater(a: Measure, b: Measure) { a != b && !Less(a, b) }

  lemma StrictWeakOrder(a: Measure, b: Measure, c: Measure)
    ensures !Less(a, a)
    ensures Less(a, b) && Less(b, c) ==> Less(a, c)
    ensures Equivalent(a, b) && Equivalent(b, c) ==> Equivalent(a, c)
    ensures Less(a, c) ==> Less(a, b) || Less(b, c)
  {
    hide Weight;
  }

  /** Neither norm is left out: a measure that is behind in one norm and ahead in none is the smaller, at any lengths. */
  lemma EachNormCounts(a: Measure, b: Measure)
    requires Norm(a.goal) <= Norm(b.goal) && Norm(a.edge) <= Norm(b.edge)
    requires Norm(a.goal) < Norm(b.goal) || Norm(a.edge) < Norm(b.edge)
    ensures Less(a, b)
  {
    hide Norm;
  }

  /** The exact rate of exchange: three of the goal norm are worth seven of the edge norm; then the longer input is the
      smaller. More than the rate outweighs any length. */
  lemma ExchangeRate(a: Measure, b: Measure, k: int)
    ensures Norm(b.edge) == Norm(a.edge) + 7 * k && Norm(a.goal) == Norm(b.goal) + 3 * k ==>
              (Less(a, b) <==> a.length > b.length)
    ensures Norm(b.edge) > Norm(a.edge) + 7 * k && Norm(a.goal) <= Norm(b.goal) + 3 * k ==> Less(a, b)
    ensures Norm(b.edge) >= Norm(a.edge) + 7 * k && Norm(a.goal) < Norm(b.goal) + 3 * k ==> Less(a, b)
  {
    hide Norm;
  }

  /** Two measures are equivalent exactly when they weigh the same and are equally long; then, and only then,
      operator> holds both ways between unequal measures, so it is not the converse of operator<. */
  lemma GreaterIsNotTheConverse(a: Measure, b: Measure)
    ensures Equivalent(a, b) <==> Weight(a) == Weight(b) && a.length == b.length
    ensures Greater(a, b) <==> Less(b, a) || (Equivalent(a, b) && a != b)
    ensures Greater(a, b) && Greater(b, a) <==> Equivalent(a, b) && a != b
  {
    hide Weight;
  }

  /** FitnessStrategy::apply hands the edge score to the goal parameter and the goal score to the edge parameter. */
  function Fitness(edges: Score, goals: Score, length: nat): Measure { Measure(edges, goals, length) }

  /** So it is the edges that weigh 0.7: improving only the edge norm by one beats improving only the goal norm by two. */
  lemma EdgesOutweighGoals(edges: Score, goals: Score, edges': Score, goals': Score, length: nat, length': nat)
    requires Norm(edges') >= Norm(edges) + 1 && Norm(goals') <= Norm(goals) + 2
    ensures Less(Fitness(edges, goals', length), Fitness(edges', goals, length'))
  {
    hide Norm;
  }
}
