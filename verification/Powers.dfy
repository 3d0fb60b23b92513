/** Powers of two. */
module Powers {

  function Pow2(n: nat): (r: nat)
    ensures r >= 1
  {
    if n == 0 then 1 else 2 * Pow2(n - 1)
  }

  lemma {:induction false} Pow2Add(p: nat, q: nat)
    ensures Pow2(p + q) == Pow2(p) * Pow2(q)
  {
    if p > 0 {
      Pow2Add(p - 1, q);
      TwiceTimes(Pow2(p - 1), Pow2(q));
    }
  }

  lemma TwiceTimes(a: nat, b: nat)
    ensures (2 * a) * b == 2 * (a * b)
  {}
}
