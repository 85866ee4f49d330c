/** From scores to a 16-bit weight vector: shares, the reserve, quantisation and
    the floor of one for active members. Shares are exact reals. */
module Weights {
  import opened Wrappers
  import opened Rounding

  const U16_MAX := 65535

  type Shares = map<int, real>

  // ---------- totals ----------

  /** Some element of a set. */
  ghost function Any<T>(s: set<T>): (x: T)
    requires s != {}
    ensures x in s
  {
    var x :| x in s;
    x
  }

  method Pick<T>(s: set<T>) returns (x: T)
    requires s != {}
    ensures x in s
  {
    x :| x in s;
  }

  /** The sum of a map's values, in any order. */
  ghost function Total(m: Shares): real
    decreases |m.Keys|
  {
    if m.Keys == {} then 0.0
    else
      var k := Any(m.Keys);
      assert (m - {k}).Keys == m.Keys - {k};
      m[k] + Total(m - {k})
  }

  lemma {:induction false} TotalSplit(m: Shares, k: int)
    requires k in m
    ensures Total(m) == m[k] + Total(m - {k})
    ensures (m - {k}).Keys == m.Keys - {k}
    decreases |m.Keys|
  {
    var c := Any(m.Keys);
    assert (m - {k}).Keys == m.Keys - {k};
    if c != k {
      assert (m - {c}).Keys == m.Keys - {c};
      var rest := m - {c} - {k};
      assert rest == m - {k} - {c};
      TotalSplit(m - {c}, k);
      TotalSplit(m - {k}, c);
    }
  }

  lemma TotalEmpty(m: Shares)
    requires m.Keys == {}
    ensures Total(m) == 0.0
  {
  }

  lemma TotalAdd(m: Shares, k: int, x: real)
    requires k !in m
    ensures Total(m[k := x]) == Total(m) + x
  {
    TotalSplit(m[k := x], k);
    assert m[k := x] - {k} == m;
  }

  predicate IsMultiple(m: Shares, n: Shares, a: real) {
    m.Keys == n.Keys && forall k | k in m :: n[k] == a * m[k]
  }

  lemma {:induction false} TotalLinear(m: Shares, n: Shares, a: real)
    requires IsMultiple(m, n, a)
    ensures Total(n) == a * Total(m)
    decreases |m.Keys|
  {
    hide *;
    MultipleKeys(m, n, a);
    if m.Keys == {} {
      TotalEmpty(m);
      TotalEmpty(n);
    } else {
      var k := Any(m.Keys);
      TotalSplit(m, k);
      TotalSplit(n, k);
      MultipleAt(m, n, a, k);
      TotalLinear(m - {k}, n - {k}, a);
      LinearStep(a, m[k], Total(m - {k}), n[k], Total(n - {k}));
    }
  }

  lemma MultipleKeys(m: Shares, n: Shares, a: real)
    requires IsMultiple(m, n, a)
    ensures m.Keys == n.Keys
  {
  }

  lemma MultipleAt(m: Shares, n: Shares, a: real, k: int)
    requires IsMultiple(m, n, a) && k in m
    ensures k in n && n[k] == a * m[k] && IsMultiple(m - {k}, n - {k}, a)
  {
  }

  lemma LinearStep(a: real, x: real, y: real, ax: real, ay: real)
    requires ax == a * x && ay == a * y
    ensures ax + ay == a * (x + y)
  {
  }

  lemma Distribute(a: real, x: real, y: real)
    ensures a * (x + y) == a * x + a * y
  {
  }

  /** Maps whose entries differ by less than one have totals that differ by less
      than the number of entries. */
  lemma {:induction false} TotalNear(m: Shares, n: Shares)
    requires m.Keys == n.Keys && m.Keys != {} && forall k | k in m :: -1.0 < m[k] - n[k] < 1.0
    ensures -(|m.Keys| as real) < Total(m) - Total(n) < |m.Keys| as real
    decreases |m.Keys|
  {
    hide Total;
    var k := Any(m.Keys);
    TotalSplit(m, k);
    TotalSplit(n, k);
    var keys := (m - {k}).Keys;
    assert |m.Keys| as real == |keys| as real + 1.0;
    if keys == {} {
      TotalEmpty(m - {k});
      TotalEmpty(n - {k});
    } else {
      TotalNear(m - {k}, n - {k});
    }
  }

  lemma {:induction false} TotalAtLeast(m: Shares, t: int)
    requires t in m && forall k | k in m :: m[k] >= 1.0
    ensures Total(m) >= m[t] + |m.Keys| as real - 1.0
    decreases |m.Keys|
  {
    hide Total;
    TotalSplit(m, t);
    var keys := (m - {t}).Keys;
    assert |m.Keys| as real == |keys| as real + 1.0;
    if keys == {} {
      TotalEmpty(m - {t});
    } else {
      TotalAtLeast(m - {t}, Any(keys));
    }
  }

  lemma {:induction false} TotalPositive(m: Shares)
    requires forall k | k in m :: m[k] > 0.0
    ensures Total(m) >= 0.0 && (m.Keys != {} ==> Total(m) > 0.0)
    ensures forall k | k in m :: m[k] <= Total(m)
    decreases |m.Keys|
  {
    hide Total;
    forall k | k in m ensures 0.0 < m[k] <= Total(m) {
      TotalSplit(m, k);
      TotalPositive(m - {k});
    }
    if m.Keys == {} {
      TotalEmpty(m);
    } else {
      var k := Any(m.Keys);
      assert m[k] <= Total(m);
    }
  }

  // ---------- shares ----------

  function Positive(m: Shares): Shares {
    map u | u in m && m[u] > 0.0 :: m[u]
  }

  function Part(m: Shares, keys: set<int>): Shares {
    map u | u in keys && u in m :: m[u]
  }

  /** `sum(positive.values())`. */
  method SumOf(m: Shares) returns (total: real)
    ensures total == Total(m)
  {
    hide Total;
    total := 0.0;
    var todo := m.Keys;
    assert Part(m, todo) == m;
    while todo != {}
      invariant todo <= m.Keys
      invariant total + Total(Part(m, todo)) == Total(m)
    {
      var uid := Pick(todo);
      TotalSplit(Part(m, todo), uid);
      assert Part(m, todo) - {uid} == Part(m, todo - {uid});
      todo := todo - {uid};
      total := total + m[uid];
    }
    TotalEmpty(Part(m, todo));
  }

  /** Shares in proportion to the positive scores, adding up to one; none at all
      exactly when no score is positive. */
  ghost predicate IsNormal(scores: Shares, shares: Shares) {
    && shares.Keys == Positive(scores).Keys
    && (shares.Keys != {} ==> Total(Positive(scores)) > 0.0 && Total(shares) == 1.0)
    && forall u | u in shares :: shares[u] > 0.0 && shares[u] * Total(Positive(scores)) == scores[u]
  }

  method Normalise(scores: Shares) returns (shares: Shares)
    ensures IsNormal(scores, shares)
  {
    hide Total;
    var positive := Positive(scores);
    var total := SumOf(positive);
    TotalPositive(positive);
    if total <= 0.0 { return map[]; }
    shares := map u | u in positive :: positive[u] / total;
    Divided(positive, total, shares);
    TotalLinear(shares, positive, total);
    Cancel(total, Total(shares), Total(positive));
  }

  lemma Divided(m: Shares, total: real, shares: Shares)
    requires total > 0.0 && shares.Keys == m.Keys && forall u | u in m :: m[u] > 0.0 && shares[u] == m[u] / total
    ensures forall u | u in m :: shares[u] > 0.0 && shares[u] * total == m[u] && m[u] == total * shares[u]
  {
  }

  lemma Cancel(a: real, x: real, y: real)
    requires a > 0.0 && y == a * x && y == a
    ensures x == 1.0
  {
  }

  /** The reserve gets the held part, the others their shares of what is left. */
  method WithReserve(shares: Shares, reserve: Option<int>, heldShare: real) returns (scaled: Shares)
    ensures reserve.None? || heldShare <= 0.0 ==> scaled == shares
    ensures reserve.Some? && heldShare > 0.0 ==>
      IsReserved(shares, reserve.value, if heldShare > 1.0 then 1.0 else heldShare, scaled)
  {
    if reserve.None? || heldShare <= 0.0 { return shares; }
    var r := reserve.value;
    var held := if heldShare > 1.0 then 1.0 else heldShare;
    scaled := map u | u in shares && u != r :: shares[u] * (1.0 - held);
    scaled := scaled[r := held];
  }

  predicate IsReserved(shares: Shares, reserve: int, held: real, scaled: Shares) {
    && scaled.Keys == shares.Keys + {reserve} && scaled[reserve] == held
    && forall u | u in shares && u != reserve :: scaled[u] == (1.0 - held) * shares[u]
  }

  /** The reserve's own share is dropped: shares that add up to one do so afterwards
      exactly when the reserve had none or everything is held. */
  lemma ReserveTotal(shares: Shares, reserve: int, held: real, scaled: Shares)
    requires Total(shares) == 1.0 && 0.0 < held <= 1.0 && IsReserved(shares, reserve, held, scaled)
    requires forall u | u in shares :: shares[u] > 0.0
    ensures Total(scaled) == 1.0 - (1.0 - held) * (if reserve in shares then shares[reserve] else 0.0)
    ensures Total(scaled) == 1.0 <==> reserve !in shares || held == 1.0
  {
    hide Total;
    TotalSplit(scaled, reserve);
    var others := shares - {reserve};
    TotalLinear(others, scaled - {reserve}, 1.0 - held);
    if reserve in shares {
      TotalSplit(shares, reserve);
      Distribute(1.0 - held, Total(others), shares[reserve]);
      NotZero(1.0 - held, shares[reserve]);
    } else {
      assert others == shares;
    }
  }

  /** With all shares on a reserve that holds two fifths, three fifths are lost. */
  lemma ReserveLosesShare(shares: Shares, scaled: Shares)
    requires shares == map[1 := 1.0] && scaled == map[1 := 0.4]
    ensures IsNormal(shares, shares) && IsReserved(shares, 1, 0.4, scaled) && Total(scaled) == 0.4
  {
    hide Total;
    assert Positive(shares) == shares;
    assert (shares - {1}).Keys == {} && (scaled - {1}).Keys == {};
    TotalSplit(shares, 1);
    TotalSplit(scaled, 1);
    TotalEmpty(shares - {1});
    TotalEmpty(scaled - {1});
  }

  lemma NotZero(a: real, b: real)
    requires b > 0.0
    ensures a * b == 0.0 <==> a == 0.0
  {
  }

  // ---------- quantisation ----------

  function Quantised(value: real, top: real): int
    requires top > 0.0
  {
    var q := Round(value / top * 65535.0);
    if q > 1 then q else 1
  }

  predicate IsTop(shares: Shares, top: real) {
    (forall u | u in shares :: shares[u] <= top) && (exists u :: u in shares && shares[u] == top)
  }

  method Top(shares: Shares) returns (top: real)
    requires shares != map[]
    ensures IsTop(shares, top)
  {
    assert shares.Keys != {};
    var first := Pick(shares.Keys);
    top := shares[first];
    var todo := shares.Keys - {first};
    ghost var at := first;
    while todo != {}
      invariant todo <= shares.Keys
      invariant at in shares && shares[at] == top
      invariant forall u | u in shares && u !in todo :: shares[u] <= top
    {
      var uid := Pick(todo);
      todo := todo - {uid};
      if shares[uid] > top { top, at := shares[uid], uid; }
    }
  }

  /** The quantised weights of the positive shares. */
  ghost predicate IsQuantised(shares: Shares, u16: map<int, int>) {
    && u16.Keys == Positive(shares).Keys
    && (u16.Keys != {} ==> exists top :: (top > 0.0 && IsTop(shares, top)
          && forall u | u in u16 :: u16[u] == Quantised(shares[u], top)))
  }

  method ToU16(shares: Shares) returns (u16: map<int, int>)
    ensures IsQuantised(shares, u16)
  {
    hide Quantised;
    u16 := map[];
    if shares == map[] { return; }
    var top := Top(shares);
    if top <= 0.0 {
      if Positive(shares).Keys != {} { var u := Any(Positive(shares).Keys); assert false; }
      return;
    }
    var todo := shares.Keys;
    while todo != {}
      invariant todo <= shares.Keys
      invariant u16.Keys == Positive(shares).Keys - todo
      invariant forall u | u in u16 :: u16[u] == Quantised(shares[u], top)
    {
      var uid := Pick(todo);
      todo := todo - {uid};
      if shares[uid] > 0.0 { u16 := u16[uid := Quantised(shares[uid], top)]; }
    }
  }

  function Reals(u16: map<int, int>): Shares {
    map u | u in u16 :: u16[u] as real
  }

  /** One weight against its exact multiple of the share. */
  lemma QuantisedNear(value: real, top: real, k: real)
    requires 0.0 < value <= top && k == 65535.0 / top
    ensures 1 <= Quantised(value, top) <= U16_MAX
    ensures -1.0 < Quantised(value, top) as real - Times(k, value) < 1.0
    ensures value == top ==> Quantised(value, top) == U16_MAX
  {
    var x := value / top * 65535.0;
    Scaling(value, top);
    Commute(value, k);
    RoundClose(x);
    RoundMonotone(0.0, x);
    RoundMonotone(x, 65535.0);
    RoundInteger(65535);
    RoundInteger(0);
  }

  lemma Scaling(value: real, top: real)
    requires 0.0 < value <= top
    ensures var x := value / top * 65535.0;
      x == value * (65535.0 / top) && 0.0 < x <= 65535.0 && (value == top ==> x == 65535.0)
  {
    var r := value / top;
    assert r * top == value;
    assert 0.0 < r <= 1.0;
  }

  lemma QuantisedMonotone(a: real, b: real, top: real)
    requires 0.0 < a <= b <= top
    ensures Quantised(a, top) <= Quantised(b, top)
  {
    hide Round;
    DivideMonotone(a, b, top);
    RoundMonotone(a / top * 65535.0, b / top * 65535.0);
  }

  lemma DivideMonotone(a: real, b: real, top: real)
    requires a <= b && top > 0.0
    ensures a / top <= b / top
  {
  }

  /** A weight is the nearest integer to its exact multiple, half way the even one, but
      never below one. */
  lemma QuantisedNearest(value: real, top: real)
    requires 0.0 < value <= top
    ensures var x, w := value / top * 65535.0, Quantised(value, top);
      && (w != 1 ==> Abs(w as real - x) <= 0.5 && (Abs(w as real - x) == 0.5 ==> w % 2 == 0))
      && (w == 1 ==> x <= 1.5)
  {
    var x := value / top * 65535.0;
    hide Round;
    RoundClose(x);
    if Abs(Round(x) as real - x) == 0.5 { TiesToEven(x); }
  }

  /** Every weight is in 1..65535, the top share gets exactly 65535, and the order
      of shares is the order of weights. */
  lemma QuantisedOrder(shares: Shares, u16: map<int, int>)
    requires IsQuantised(shares, u16)
    ensures forall u | u in u16 :: 1 <= u16[u] <= U16_MAX
    ensures u16.Keys != {} ==> exists t :: (t in u16 && u16[t] == U16_MAX && forall u | u in shares :: shares[u] <= shares[t])
    ensures forall u, v | u in u16 && v in u16 && shares[u] <= shares[v] :: u16[u] <= u16[v]
  {
    hide Quantised;
    if u16.Keys != {} {
      var top :| top > 0.0 && IsTop(shares, top) && forall u | u in u16 :: u16[u] == Quantised(shares[u], top);
      var t :| t in shares && shares[t] == top;
      assert t in Positive(shares);
      forall u | u in u16 ensures 1 <= u16[u] <= U16_MAX {
        QuantisedNear(shares[u], top, 65535.0 / top);
      }
      QuantisedNear(shares[t], top, 65535.0 / top);
      assert u16[t] == U16_MAX;
      forall u, v | u in u16 && v in u16 && shares[u] <= shares[v] ensures u16[u] <= u16[v] {
        QuantisedMonotone(shares[u], shares[v], top);
      }
    }
  }

  /** The error bound: with n positive shares of total T, a weight's part of the
      total weight differs from its share's part of T by less than
      (1 + n * share / T) / (65534 + n), which is at most (n + 1) / 65535. */
  lemma QuantisationError(shares: Shares, u16: map<int, int>, u: int)
    requires IsQuantised(shares, u16) && u in u16
    ensures Total(Positive(shares)) > 0.0 && Total(Reals(u16)) >= 65534.0 + |u16.Keys| as real
    ensures Near(u16[u] as real / Total(Reals(u16)), shares[u] / Total(Positive(shares)), |u16.Keys| as real)
  {
    hide Quantised, Total, IsTop, Near, Reals;
    var top :| top > 0.0 && IsTop(shares, top) && forall v | v in u16 :: u16[v] == Quantised(shares[v], top);
    TotalsOfQuantised(shares, u16, top, 65535.0 / top);
    TopIs(shares, top);
    QuantisedNear(shares[u], top, 65535.0 / top);
    PartOfTotal(shares, u);
    AtLeastOne(u16, u);
    ErrorBound(u16[u] as real, Total(Reals(u16)), shares[u], Total(Positive(shares)), 65535.0 / top, |u16.Keys| as real);
  }

  lemma PartOfTotal(shares: Shares, u: int)
    requires u in Positive(shares)
    ensures 0.0 < shares[u] <= Total(Positive(shares))
  {
    hide Total;
    var positive := Positive(shares);
    TotalPositive(positive);
    assert positive[u] <= Total(positive);
  }

  lemma AtLeastOne(u16: map<int, int>, u: int)
    requires u in u16
    ensures |u16.Keys| >= 1
  {
  }

  /** The claim of the error bound, for a weight's part and a share's part. */
  predicate Near(weightPart: real, sharePart: real, n: real)
    requires n >= 0.0
  {
    Abs(weightPart - sharePart) < (1.0 + n * sharePart) / (65534.0 + n) <= (n + 1.0) / 65535.0
  }

  lemma Commute(a: real, b: real)
    ensures a * b == b * a
  {
  }

  lemma TopIs(shares: Shares, top: real)
    requires IsTop(shares, top)
    ensures forall u | u in shares :: shares[u] <= top
  {
  }

  lemma TotalsOfQuantised(shares: Shares, u16: map<int, int>, top: real, k: real)
    requires top > 0.0 && IsTop(shares, top) && k == 65535.0 / top
    requires u16.Keys == Positive(shares).Keys && forall v | v in u16 :: u16[v] == Quantised(shares[v], top)
    ensures var n := |u16.Keys| as real;
      && -n < Total(Reals(u16)) - k * Total(Positive(shares)) < n
      && Total(Reals(u16)) >= 65534.0 + n
  {
    hide Quantised, Total, Times;
    var positive, w := Positive(shares), Reals(u16);
    var scaled := map v | v in positive :: Times(k, positive[v]);
    forall v | v in w ensures -1.0 < w[v] - scaled[v] < 1.0 && w[v] >= 1.0 {
      QuantisedNear(shares[v], top, k);
    }
    var t :| t in shares && shares[t] == top;
    assert t in positive && w.Keys == u16.Keys;
    QuantisedNear(shares[t], top, k);
    TotalOfTimes(positive, scaled, k);
    TotalNear(w, scaled);
    TotalAtLeast(w, t);
  }

  function Times(a: real, b: real): real { a * b }

  lemma TotalOfTimes(m: Shares, n: Shares, k: real)
    requires n.Keys == m.Keys && forall v | v in m :: n[v] == Times(k, m[v])
    ensures Total(n) == k * Total(m)
  {
    TotalLinear(m, n, k);
  }

  lemma ErrorBound(w: real, sumW: real, s: real, sumS: real, k: real, n: real)
    requires 0.0 < s <= sumS && n >= 1.0
    requires -1.0 < w - k * s < 1.0
    requires -n < sumW - k * sumS < n
    requires sumW >= 65534.0 + n
    ensures Near(w / sumW, s / sumS, n)
  {
    hide *;
    DivideBack(s, sumS);
    DivideTimes(w, sumW, s / sumS);
    ErrorCore(w, sumW, s, s / sumS, sumS, k, n, w / sumW - s / sumS);
    NearIs(w / sumW, s / sumS, n);
  }

  lemma NearIs(a: real, b: real, n: real)
    requires 0.0 < b <= 1.0 && n >= 1.0 && Abs(a - b) < (1.0 + n * b) / (65534.0 + n)
    ensures Near(a, b, n)
  {
    LastBound(b, n);
  }

  lemma ErrorCore(w: real, sumW: real, s: real, part: real, sumS: real, k: real, n: real, d: real)
    requires 0.0 < part <= 1.0 && n >= 1.0 && part * sumS == s
    requires -1.0 < w - k * s < 1.0
    requires -n < sumW - k * sumS < n
    requires sumW >= 65534.0 + n
    requires d * sumW == w - part * sumW
    ensures Abs(d) < (1.0 + n * part) / (65534.0 + n)
  {
    hide *;
    PartTimes(part, sumS, k, sumW, n);
    Regroup(k, part, sumS);
    DivideBound(w - part * sumW, sumW, 1.0 + n * part, 65534.0 + n, d);
  }

  lemma Regroup(k: real, part: real, sumS: real)
    ensures k * (part * sumS) == part * (k * sumS)
  {
  }

  lemma DivideBack(s: real, sumS: real)
    requires 0.0 < s <= sumS
    ensures s / sumS * sumS == s && 0.0 < s / sumS <= 1.0
  {
  }

  lemma DivideTimes(w: real, sumW: real, part: real)
    requires sumW > 0.0
    ensures (w / sumW - part) * sumW == w - part * sumW
  {
  }

  lemma PartTimes(part: real, sumS: real, k: real, sumW: real, n: real)
    requires part > 0.0 && -n < sumW - k * sumS < n
    ensures -(n * part) < part * sumW - part * (k * sumS) < n * part
  {
    var x := sumW - k * sumS;
    assert part * x == part * sumW - part * (k * sumS);
    assert part * x < part * n && part * (x + n) > 0.0;
  }

  lemma DivideBound(e: real, sumW: real, b: real, low: real, d: real)
    requires sumW >= low > 0.0 && -b < e < b && d * sumW == e
    ensures Abs(d) < b / low
  {
    var q := b / low;
    assert q * low == b && q > 0.0;
    assert q * sumW >= q * low;
    if d >= q { assert d * sumW >= q * sumW; }
    if -d >= q { assert -d * sumW >= q * sumW; }
  }

  lemma LastBound(part: real, n: real)
    requires 0.0 < part <= 1.0 && n >= 1.0
    ensures (1.0 + n * part) / (65534.0 + n) <= (n + 1.0) / 65535.0
  {
    assert n * part <= n;
    Fractions(1.0 + n * part, n + 1.0, 65534.0 + n, 65535.0);
  }

  lemma Fractions(x: real, y: real, a: real, b: real)
    requires 0.0 <= x <= y && a >= b > 0.0
    ensures x / a <= y / b
  {
    Shrink(x, a, b);
    assert x / b <= y / b;
  }

  lemma Shrink(x: real, a: real, b: real)
    requires 0.0 <= x && a >= b > 0.0
    ensures x / a <= x / b
  {
    var p := x / a;
    assert p * a == x && p >= 0.0;
    assert p * b <= x;
    assert p <= x / b;
  }

  // ---------- the floor ----------

  predicate Ascending(s: seq<int>) {
    forall i, j | 0 <= i < j < |s| :: s[i] < s[j]
  }

  /** `sorted` of a set. */
  method Sorted(s: set<int>) returns (q: seq<int>)
    ensures Ascending(q) && |q| == |s| && forall u :: u in q <==> u in s
  {
    q := [];
    var todo := s;
    while todo != {}
      invariant todo <= s && |q| + |todo| == |s|
      invariant Ascending(q)
      invariant forall u :: u in q <==> u in s && u !in todo
      invariant forall u, v | u in q && v in todo :: u < v
    {
      var least := Least(todo);
      assert forall i | 0 <= i < |q| :: q[i] in q;
      todo := todo - {least};
      q := q + [least];
    }
  }

  method Least(s: set<int>) returns (least: int)
    requires s != {}
    ensures least in s && forall u | u in s :: least <= u
  {
    least := Pick(s);
    var todo := s - {least};
    while todo != {}
      invariant todo <= s && least in s
      invariant forall u | u in s && u !in todo :: least <= u
    {
      var u := Pick(todo);
      todo := todo - {u};
      if u < least { least := u; }
    }
  }

  /** Active members without a weight, other than the donor. */
  function Missing(u16: map<int, int>, active: set<int>, donor: Option<int>): set<int> {
    set u | u in active && u !in u16 && donor != Some(u)
  }

  /** One unit from the donor to each missing uid, smallest first, while the donor
      keeps at least one. */
  method EligibilityFloor(start: map<int, int>, active: set<int>, donor: Option<int>)
    returns (u16: map<int, int>, floored: seq<int>)
    ensures donor.None? || donor.value !in start ==> u16 == start && floored == []
    ensures donor.Some? && donor.value in start ==> IsFloored(start, active, donor.value, u16, floored)
  {
    u16, floored := start, [];
    var missing := Sorted(Missing(start, active, donor));
    if missing == [] || donor.None? || donor.value !in u16 { return; }
    var d := donor.value;
    for k := 0 to |missing|
      invariant d in u16 && floored == missing[..k]
      invariant k > 0 ==> start[d] > k
      invariant u16 == Funded(start, d, floored)
    {
      if u16[d] <= 1 {
        FirstOnes(missing, floored);
        return;
      }
      assert missing[k] in missing;
      FundedStep(start, d, missing, k);
      u16 := u16[d := u16[d] - 1][missing[k] := 1];
      floored := floored + [missing[k]];
      assert missing[..k + 1] == missing[..k] + [missing[k]];
    }
    assert missing[..|missing|] == missing;
    FirstOnes(missing, floored);
  }

  /** The weights after the listed uids got one unit each from the donor. */
  function Funded(start: map<int, int>, donor: int, floored: seq<int>): map<int, int>
    requires donor in start
  {
    map u | u in start.Keys + (set v | v in floored) ::
      if u in floored then 1 else if u == donor then start[donor] - |floored| else start[u]
  }

  lemma FundedStep(start: map<int, int>, donor: int, missing: seq<int>, k: nat)
    requires donor in start && k < |missing| && donor !in missing
    ensures var before := Funded(start, donor, missing[..k]);
      donor in before && Funded(start, donor, missing[..k] + [missing[k]])
                      == before[donor := before[donor] - 1][missing[k] := 1]
  {
    var before, more := Funded(start, donor, missing[..k]), missing[..k] + [missing[k]];
    assert donor !in missing[..k] && donor !in more;
  }

  /** A list of the smallest elements of a set, in order. */
  ghost predicate IsFirstOf(q: seq<int>, s: set<int>) {
    && Ascending(q) && (forall u | u in q :: u in s)
    && (forall u, v | u in q && v in s && v !in q :: u < v)
  }

  /** The floored uids are the smallest missing ones, as many as the donor can pay
      for without going below one. */
  ghost predicate IsFloored(start: map<int, int>, active: set<int>, donor: int, u16: map<int, int>, floored: seq<int>)
    requires donor in start
  {
    var missing := Missing(start, active, Some(donor));
    && IsFirstOf(floored, missing) && |floored| == Funds(|missing|, start[donor])
    && u16 == Funded(start, donor, floored)
  }

  /** min(missing, weight - 1), never negative. */
  function Funds(missing: nat, weight: int): nat {
    if weight <= 1 then 0 else if missing < weight - 1 then missing else weight - 1
  }

  lemma FirstOnes(missing: seq<int>, floored: seq<int>)
    requires Ascending(missing) && floored <= missing
    ensures Ascending(floored)
    ensures forall u | u in floored :: u in missing
    ensures forall u, v | u in floored && v in missing && v !in floored :: u < v
  {
    forall u, v | u in floored && v in missing && v !in floored ensures u < v {
      var i :| 0 <= i < |floored| && floored[i] == u;
      var j :| 0 <= j < |missing| && missing[j] == v;
      assert forall k | 0 <= k < |floored| :: floored[k] in floored && floored[k] == missing[k];
    }
  }

  /** Flooring moves weight and never makes or loses any; the donor stays in. */
  lemma FloorKeepsTotal(start: map<int, int>, active: set<int>, donor: int, u16: map<int, int>, floored: seq<int>)
    requires donor in start && IsFloored(start, active, donor, u16, floored)
    ensures Total(Reals(u16)) == Total(Reals(start))
    ensures start[donor] >= 1 ==> u16[donor] >= 1
    ensures forall u | u in start && u != donor :: u in u16 && u16[u] == start[u]
  {
    FundedTotal(start, donor, floored);
  }

  lemma {:induction false} FundedTotal(start: map<int, int>, donor: int, floored: seq<int>)
    requires donor in start && Ascending(floored) && forall u | u in floored :: u !in start
    ensures Total(Reals(Funded(start, donor, floored))) == Total(Reals(start))
  {
    hide Total;
    if floored == [] {
      assert Funded(start, donor, floored) == start;
    } else {
      var k := |floored| - 1;
      var front, last := floored[..k], floored[k];
      FundedTotal(start, donor, front);
      assert last in floored && last !in front && last !in start;
      FundedStep(start, donor, floored, k);
      assert floored == front + [last];
      PaidTotal(Funded(start, donor, front), donor, last);
    }
  }

  lemma PaidTotal(before: map<int, int>, donor: int, uid: int)
    requires donor in before && uid !in before
    ensures Total(Reals(before[donor := before[donor] - 1][uid := 1])) == Total(Reals(before))
  {
    hide Total;
    var paid := before[donor := before[donor] - 1];
    TotalSplit(Reals(before), donor);
    TotalSplit(Reals(paid), donor);
    assert Reals(before) - {donor} == Reals(paid) - {donor};
    TotalAdd(Reals(paid), uid, 1.0);
    assert Reals(paid[uid := 1]) == Reals(paid)[uid := 1.0];
  }

  lemma {:induction false} DistinctCount(s: seq<int>)
    requires Ascending(s)
    ensures |(set u | u in s)| == |s|
  {
    if s != [] {
      var n := |s| - 1;
      DistinctCount(s[..n]);
      assert s == s[..n] + [s[n]];
      assert (set u | u in s) == (set u | u in s[..n]) + {s[n]};
      assert forall i | 0 <= i < n :: s[..n][i] == s[i] < s[n];
    }
  }

  /** The floor goes on until every active member has a weight or the donor is down to
      one; so with enough to give, every active member ends with at least one. */
  lemma FloorIsComplete(start: map<int, int>, active: set<int>, donor: int, u16: map<int, int>, floored: seq<int>)
    requires donor in start && IsFloored(start, active, donor, u16, floored)
    ensures (forall u :: u in active ==> u in u16) || u16[donor] <= 1
    ensures start[donor] > |active| ==> forall u :: u in active ==> u in u16
    ensures forall u :: u in u16 && u !in start ==> u in active && u16[u] == 1
  {
    var missing := Missing(start, active, Some(donor));
    var funded := set u | u in floored;
    DistinctCount(floored);
    SmallerSet(missing, active);
    assert funded <= missing;
    if |floored| == |missing| {
      SameSize(funded, missing);
    }
  }

  lemma SmallerSet(a: set<int>, b: set<int>)
    requires a <= b
    ensures |a| <= |b|
  {
    assert |b| == |a| + |b - a| by { assert b == a + (b - a); }
  }

  lemma SameSize(a: set<int>, b: set<int>)
    requires a <= b && |a| == |b|
    ensures a == b
  {
    assert b == a + (b - a);
    assert |b - a| == 0;
  }

  // ---------- the vector ----------

  /** What the reserve leaves of normal shares. */
  predicate IsShared(normal: Shares, reserve: Option<int>, heldShare: real, shares: Shares) {
    if reserve.Some? && heldShare > 0.0
    then IsReserved(normal, reserve.value, if heldShare > 1.0 then 1.0 else heldShare, shares)
    else shares == normal
  }

  /** One weight for each uid, in ascending order of uids, each in 1..65535. */
  predicate InRange(uids: seq<int>, weights: seq<int>) {
    Ascending(uids) && |weights| == |uids| && forall i | 0 <= i < |weights| :: 1 <= weights[i] <= U16_MAX
  }

  /** The vector of quantised weights after the floor: every weighted or funded uid
      once, ascending, each with its final weight. */
  ghost predicate IsVector(u16: map<int, int>, active: set<int>, reserve: Option<int>, uids: seq<int>, weights: seq<int>, floored: seq<int>) {
    && InRange(uids, weights)
    && (forall u :: u in uids <==> u in u16 || u in floored)
    && (forall i | 0 <= i < |uids| :: weights[i] == FinalWeight(u16, reserve, floored, uids[i]))
    && IsFunded(u16, active, reserve, floored)
  }

  /** The smallest missing members, as many as the reserve can pay for. */
  ghost predicate IsFunded(u16: map<int, int>, active: set<int>, reserve: Option<int>, floored: seq<int>) {
    if reserve.Some? && reserve.value in u16
    then |floored| == Funds(|Missing(u16, active, reserve)|, u16[reserve.value]) && IsFirstOf(floored, Missing(u16, active, reserve))
    else floored == []
  }

  /** The floor and the sorted listing. */
  method Listing(u16: map<int, int>, active: set<int>, reserve: Option<int>)
    returns (uids: seq<int>, weights: seq<int>, floored: seq<int>)
    requires forall u | u in u16 :: 1 <= u16[u] <= U16_MAX
    ensures IsVector(u16, active, reserve, uids, weights, floored)
    ensures InRange(uids, weights)
  {
    hide FinalWeight, IsFunded, IsFloored, Missing, Funded;
    var final;
    final, floored := EligibilityFloor(u16, active, reserve);
    FinalRange(u16, active, reserve, final, floored);
    FlooredParts(u16, active, reserve, final, floored);
    uids := Sorted(final.Keys);
    forall i | 0 <= i < |uids| ensures uids[i] in final {
      assert uids[i] in uids;
    }
    weights := seq(|uids|, i requires 0 <= i < |uids| => final[uids[i]]);
  }

  /** `build`: the uids ascending, with their weights. The shares before and after
      the reserve, and the weights before the floor, are ghost results. */
  method Build(scores: Shares, active: set<int>, reserve: Option<int>, heldShare: real)
    returns (uids: seq<int>, weights: seq<int>, floored: seq<int>, ghost normal: Shares, ghost shares: Shares, ghost u16: map<int, int>)
    ensures IsNormal(scores, normal) && IsShared(normal, reserve, heldShare, shares)
    ensures IsQuantised(shares, u16)
    ensures IsVector(u16, active, reserve, uids, weights, floored)
    ensures InRange(uids, weights)
  {
    hide IsNormal, IsReserved, IsQuantised, IsVector;
    var plain := Normalise(scores);
    var scaled := WithReserve(plain, reserve, heldShare);
    normal, shares := plain, scaled;
    var out := ToU16(scaled);
    u16 := out;
    QuantisedOrder(shares, u16);
    uids, weights, floored := Listing(out, active, reserve);
  }

  lemma FlooredParts(u16: map<int, int>, active: set<int>, reserve: Option<int>, final: map<int, int>, floored: seq<int>)
    requires reserve.None? || reserve.value !in u16 ==> floored == []
    requires reserve.Some? && reserve.value in u16 ==> IsFloored(u16, active, reserve.value, final, floored)
    ensures IsFunded(u16, active, reserve, floored)
  {
  }

  lemma FinalRange(u16: map<int, int>, active: set<int>, reserve: Option<int>, final: map<int, int>, floored: seq<int>)
    requires forall u | u in u16 :: 1 <= u16[u] <= U16_MAX
    requires reserve.None? || reserve.value !in u16 ==> final == u16 && floored == []
    requires reserve.Some? && reserve.value in u16 ==> IsFloored(u16, active, reserve.value, final, floored)
    ensures forall u | u in final :: 1 <= final[u] <= U16_MAX
    ensures forall u :: u in final <==> u in u16 || u in floored
    ensures forall u | u in final :: final[u] == FinalWeight(u16, reserve, floored, u)
  {
  }

  /** A floored uid has one; the reserve paid for them; the rest keep theirs. */
  function FinalWeight(u16: map<int, int>, reserve: Option<int>, floored: seq<int>, u: int): int
    requires u in u16 || u in floored
  {
    if u in floored then 1 else if reserve == Some(u) then u16[u] - |floored| else u16[u]
  }
}
