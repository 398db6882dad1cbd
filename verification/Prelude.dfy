/** Small vocabulary shared by the whole model: optional values, order sides and exact decimal
    arithmetic.  The system computes with decimals; they are modelled as reals. */
module Prelude {

  datatype Option<+T> = None | Some(value: T) {
    function GetOr(default: T): T {
      match this
      case Some(v) => v
      case None => default
    }
  }

  datatype Side = Buy | Sell

  type Exchange = string
  type Asset = string

  /** A canonical symbol BASE/QUOTE, already split and upper-cased. */
  datatype Symbol = Symbol(base: Asset, quote: Asset)

  const BPS := 10000.0

  function Min(a: real, b: real): real {
    if a <= b then a else b
  }

  function Max(a: real, b: real): real {
    if a >= b then a else b
  }

  function Abs(a: real): real {
    if a >= 0.0 then a else -a
  }

  /** Add to an entry that may not exist yet. */
  function AddTo<K(==)>(m: map<K, real>, key: K, amount: real): map<K, real> {
    m[key := (if key in m then m[key] else 0.0) + amount]
  }

  /** Subtract from an entry, floored at zero. */
  function TakeFrom<K(==)>(m: map<K, real>, key: K, amount: real): map<K, real> {
    m[key := Max(0.0, (if key in m then m[key] else 0.0) - amount)]
  }

  /** Quantity times price.  Naming the product lets proofs about long sums treat it as one term
      and leave its arithmetic to the lemmas below. */
  function Times(a: real, b: real): real {
    a * b
  }

  lemma TimesMono(k: real, a: real, b: real)
    requires 0.0 <= k && a <= b
    ensures Times(k, a) <= Times(k, b)
    ensures Times(a, k) <= Times(b, k)
  {
    assert (b - a) * k >= 0.0;
  }

  lemma TimesStrict(k: real, a: real, b: real)
    requires 0.0 < k && a < b
    ensures Times(k, a) < Times(k, b)
    ensures Times(a, k) < Times(b, k)
  {
    assert (b - a) * k > 0.0;
  }

  lemma TimesAdd(a: real, b: real, p: real)
    ensures Times(a + b, p) == Times(a, p) + Times(b, p)
    ensures Times(p, a + b) == Times(p, a) + Times(p, b)
    ensures Times(a - b, p) == Times(a, p) - Times(b, p)
    ensures Times(p, a - b) == Times(p, a) - Times(p, b)
  {}

  lemma TimesCommutes(a: real, b: real)
    ensures Times(a, b) == Times(b, a)
  {}

  lemma TimesAssociates(a: real, b: real, c: real)
    ensures Times(Times(a, b), c) == Times(a, Times(b, c))
  {}

  lemma TimesNegate(a: real, b: real)
    ensures Times(-a, b) == -Times(a, b)
    ensures Times(a, -b) == -Times(a, b)
  {}

  lemma TimesDivide(x: real, y: real)
    requires y != 0.0
    ensures Times(x / y, y) == x
    ensures Times(y, x / y) == x
  {}

  /** Fractions with positive denominators compare by cross-multiplication. */
  lemma DivCompare(x: real, y: real, u: real, v: real)
    requires 0.0 < y && 0.0 < v
    requires Times(x, v) <= Times(u, y)
    ensures x / y <= u / v
  {
    var p, q := x / y, u / v;
    TimesDivide(x, y);
    TimesDivide(u, v);
    CrossTerms(p, q, y, v);
    assert 0.0 < y * v;
    if q < p {
      TimesStrict(y * v, q, p);
      assert false;
    }
  }

  lemma CrossTerms(p: real, q: real, y: real, v: real)
    ensures Times(Times(p, y), v) == Times(p, y * v)
    ensures Times(Times(q, v), y) == Times(q, y * v)
  {
    assert (p * y) * v == p * (y * v);
    assert (q * v) * y == q * (y * v);
  }

  lemma DivBounds(x: real, y: real, lo: real, hi: real)
    requires 0.0 < y
    requires Times(y, lo) <= x <= Times(y, hi)
    ensures lo <= x / y <= hi
  {
    DivCompare(lo, 1.0, x, y);
    DivCompare(x, y, hi, 1.0);
  }
}
