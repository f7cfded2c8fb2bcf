/** Numbers written with a different base at every place: the index arithmetic of a product of
    axes, where `lens` are the axis lengths and the last axis turns fastest. */
module MixedRadix {
  import opened Seqs

  function Size(lens: seq<nat>): nat {
    if lens == [] then 1 else Size(Init(lens)) * Last(lens)
  }

  ghost predicate InRange(lens: seq<nat>, ds: seq<nat>) {
    |ds| == |lens| && forall i :: 0 <= i < |ds| ==> ds[i] < lens[i]
  }

  ghost predicate LexLess(a: seq<nat>, b: seq<nat>) {
    exists k :: LexAt(a, b, k)
  }

  ghost predicate LexAt(a: seq<nat>, b: seq<nat>, k: int) {
    0 <= k < |a| && k < |b| && a[k] < b[k] && forall i :: 0 <= i < k ==> a[i] == b[i]
  }

  function Digits(lens: seq<nat>, n: nat): (ds: seq<nat>)
    requires n < Size(lens)
    ensures InRange(lens, ds)
  {
    if lens == [] then []
    else
      var l := Last(lens);
      DivBound(n, Size(Init(lens)), l);
      Digits(Init(lens), n / l) + [n % l]
  }

  function Rank(lens: seq<nat>, ds: seq<nat>): (n: nat)
    requires InRange(lens, ds)
    ensures n < Size(lens)
  {
    if lens == [] then 0
    else
      var q := Rank(Init(lens), Init(ds));
      MulBound(q, Size(Init(lens)), Last(ds), Last(lens));
      q * Last(lens) + Last(ds)
  }

  // ----- division by a factor

  lemma DivBound(n: nat, s: nat, l: nat)
    requires n < s * l
    ensures l > 0 && n / l < s
  {
    assert l == 0 ==> s * l == 0;
    assert n == (n / l) * l + n % l;
    MulMonotone(s, n / l, l);
  }

  lemma MulMonotone(x: nat, y: nat, z: nat)
    ensures x <= y ==> x * z <= y * z
  {
  }

  lemma MulStep(x: nat, y: nat, z: nat)
    ensures x < y ==> x * z + z <= y * z
  {
    MulMonotone(x + 1, y, z);
    assert (x + 1) * z == x * z + z;
  }

  lemma MulBound(q: nat, s: nat, d: nat, l: nat)
    requires q < s && d < l
    ensures q * l + d < s * l
  {
    MulStep(q, s, l);
  }

  lemma DivModUnique(n: nat, l: nat, q: nat, r: nat)
    requires r < l && n == q * l + r
    ensures n / l == q && n % l == r
  {
    assert n == (n / l) * l + n % l;
    MulStep(n / l, q, l);
    MulStep(q, n / l, l);
  }

  lemma DivMonotone(m: nat, n: nat, l: nat)
    requires m <= n && l > 0
    ensures m / l <= n / l
    ensures m == (m / l) * l + m % l && n == (n / l) * l + n % l
  {
    assert m == (m / l) * l + m % l;
    assert n == (n / l) * l + n % l;
    MulStep(n / l, m / l, l);
  }

  lemma DivCompare(m: nat, n: nat, l: nat)
    requires m < n && l > 0
    ensures m / l < n / l || (m / l == n / l && m % l < n % l)
  {
    DivMonotone(m, n, l);
  }

  // ----- a number and its digits determine each other

  lemma {:induction false} DigitsOfRank(lens: seq<nat>, ds: seq<nat>)
    requires InRange(lens, ds)
    ensures Digits(lens, Rank(lens, ds)) == ds
  {
    if lens == [] {
    } else {
      var q := Rank(Init(lens), Init(ds));
      DivModUnique(Rank(lens, ds), Last(lens), q, Last(ds));
      DigitsOfRank(Init(lens), Init(ds));
      InitLast(ds);
    }
  }

  lemma {:induction false} RankOfDigits(lens: seq<nat>, n: nat)
    requires n < Size(lens)
    ensures Rank(lens, Digits(lens, n)) == n
  {
    if lens == [] {
    } else {
      var l := Last(lens);
      DivBound(n, Size(Init(lens)), l);
      RankOfDigits(Init(lens), n / l);
      var ds := Digits(lens, n);
      assert Init(ds) == Digits(Init(lens), n / l) && Last(ds) == n % l;
      DivMonotone(n, n, l);
    }
  }

  // ----- counting up is lexicographic

  lemma {:induction false} SmallerIsLexLess(lens: seq<nat>, m: nat, n: nat)
    requires m < n < Size(lens)
    ensures LexLess(Digits(lens, m), Digits(lens, n))
  {
    if lens == [] {
    } else {
      var l := Last(lens);
      DigitsSplit(lens, m);
      DigitsSplit(lens, n);
      DivCompare(m, n, l);
      if m / l == n / l {
        LexLast(Digits(Init(lens), m / l), m % l, n % l);
      } else {
        SmallerIsLexLess(Init(lens), m / l, n / l);
        LexExtend(Digits(Init(lens), m / l), Digits(Init(lens), n / l), [m % l], [n % l]);
      }
    }
  }

  lemma DigitsSplit(lens: seq<nat>, n: nat)
    requires lens != [] && n < Size(lens)
    ensures Last(lens) > 0 && n / Last(lens) < Size(Init(lens))
    ensures Digits(lens, n) == Digits(Init(lens), n / Last(lens)) + [n % Last(lens)]
  {
    DivBound(n, Size(Init(lens)), Last(lens));
  }

  lemma LexLast(front: seq<nat>, d: nat, e: nat)
    requires d < e
    ensures LexLess(front + [d], front + [e])
  {
    assert LexAt(front + [d], front + [e], |front|);
  }

  lemma LexExtend(a: seq<nat>, b: seq<nat>, a': seq<nat>, b': seq<nat>)
    requires LexLess(a, b)
    ensures LexLess(a + a', b + b')
  {
    var k :| LexAt(a, b, k);
    assert LexAt(a + a', b + b', k);
  }

  lemma LexAsymmetric(a: seq<nat>, b: seq<nat>)
    requires LexLess(a, b)
    ensures !LexLess(b, a) && a != b
  {
    var j :| LexAt(a, b, j);
    assert forall k :: LexAt(b, a, k) ==> k < j || j < k;
  }

  /** Cells come in lexicographic order of their positions on the axes. */
  lemma OrderIsLexicographic(lens: seq<nat>, m: nat, n: nat)
    requires m < Size(lens) && n < Size(lens)
    ensures m < n <==> LexLess(Digits(lens, m), Digits(lens, n))
  {
    if m < n {
      SmallerIsLexLess(lens, m, n);
    } else if LexLess(Digits(lens, m), Digits(lens, n)) {
      LexAsymmetric(Digits(lens, m), Digits(lens, n));
      if n < m {
        SmallerIsLexLess(lens, n, m);
      }
    }
  }

  // ----- each digit by itself

  lemma {:induction false} SizeConcat(a: seq<nat>, b: seq<nat>)
    ensures Size(a + b) == Size(a) * Size(b)
  {
    if b == [] {
      assert a + b == a;
    } else {
      assert Init(a + b) == a + Init(b);
      SizeConcat(a, Init(b));
      MulAssoc(Size(a), Size(Init(b)), Last(b));
    }
  }

  lemma MulAssoc(x: nat, y: nat, z: nat)
    ensures (x * y) * z == x * (y * z)
  {
  }

  /** Digit i is n divided by the size of everything to its right, modulo the length of axis i. */
  lemma {:induction false} DigitFormula(lens: seq<nat>, n: nat, i: nat)
    requires n < Size(lens) && i < |lens|
    ensures Size(lens[i + 1..]) > 0 && lens[i] > 0
    ensures Digits(lens, n)[i] == (n / Size(lens[i + 1..])) % lens[i]
  {
    var l := Last(lens);
    DivBound(n, Size(Init(lens)), l);
    if i < |lens| - 1 {
      DigitFormula(Init(lens), n / l, i);
      var rest := Init(lens)[i + 1..];
      assert Init(lens[i + 1..]) == rest && Last(lens[i + 1..]) == l;
      DivDiv(n, l, Size(rest));
    } else {
      assert lens[i + 1..] == [];
    }
  }

  lemma DivDiv(n: nat, l: nat, s: nat)
    requires l > 0 && s > 0
    ensures s * l > 0 && n / (s * l) == (n / l) / s
  {
    var a, b, c := (n / l) / s, (n / l) % s, n % l;
    DivMonotone(n, n, l);
    DivMonotone(n / l, n / l, s);
    MulBound(b, s, c, l);
    Distribute(a, s, b, l);
    DivModUnique(n, s * l, a, b * l + c);
  }

  lemma Distribute(a: nat, s: nat, b: nat, l: nat)
    ensures (a * s + b) * l == a * (s * l) + b * l
  {
    MulAssoc(a, s, l);
  }
}
