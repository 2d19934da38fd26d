/** The comparison of two logs: distance on the circle and order statistics. */
module ReferenceCompare {
  import opened Vectors

  // ---- distance on the circle -------------------------------------------

  /** Python's `%` on floats with a positive modulus. */
  function FloorMod(x: real, modulus: real): real
    requires modulus > 0.0
  {
    x - (x / modulus).Floor as real * modulus
  }

  /** `k` whole turns, in degrees. */
  function Turns(k: int): real { 360.0 * k as real }

  function AngularDelta(x: real, y: real): real {
    var d := FloorMod(Abs(x - y), 360.0);
    if d <= 360.0 - d then d else 360.0 - d
  }

  /** The circle distance is the least of the straight distances between the first angle and any
      whole number of turns from the second, and one of them attains it. */
  lemma NearestTurn(x: real, y: real) returns (turns: int)
    ensures forall k: int :: AngularDelta(x, y) <= Abs(x - y + Turns(k))
    ensures AngularDelta(x, y) == Abs(x - y + Turns(turns))
  {
    var z := Abs(x - y);
    var q := (z / 360.0).Floor;
    var d := FloorMod(z, 360.0);
    assert 0.0 <= d < 360.0;
    forall k: int
      ensures AngularDelta(x, y) <= Abs(x - y + Turns(k))
    {
      var j := if x >= y then k + q else q - k;
      assert Abs(x - y + Turns(k)) == Abs(d + Turns(j));
    }
    var back := if d <= 360.0 - d then q else q + 1;
    turns := if x >= y then -back else back;
  }

  /** A pseudometric: between 0 and 180, symmetric, zero exactly for angles whole turns apart. */
  lemma DeltaRange(x: real, y: real)
    ensures 0.0 <= AngularDelta(x, y) <= 180.0
    ensures AngularDelta(x, y) == AngularDelta(y, x)
    ensures AngularDelta(x, y) == 0.0 <==> exists k: int :: x - y == Turns(k)
  {
    assert Abs(x - y) == Abs(y - x);
    var turns := NearestTurn(x, y);
    if AngularDelta(x, y) == 0.0 {
      assert x - y == Turns(-turns);
    }
    if k: int :| x - y == Turns(k) {
      assert AngularDelta(x, y) <= Abs(x - y + Turns(-k));
    }
  }

  /** Whole turns added to either angle change nothing. */
  lemma DeltaPeriodic(x: real, y: real, j: int, k: int)
    ensures AngularDelta(x + Turns(j), y + Turns(k)) == AngularDelta(x, y)
  {
    var x', y' := x + Turns(j), y + Turns(k);
    var t := NearestTurn(x, y);
    var t' := NearestTurn(x', y');
    assert x' - y' + Turns(t - j + k) == x - y + Turns(t);
    assert x - y + Turns(t' + j - k) == x' - y' + Turns(t');
  }

  lemma DeltaTriangle(x: real, y: real, z: real)
    ensures AngularDelta(x, z) <= AngularDelta(x, y) + AngularDelta(y, z)
  {
    var j := NearestTurn(x, y);
    var k := NearestTurn(y, z);
    var i := NearestTurn(x, z);
    assert x - z + Turns(j + k) == (x - y + Turns(j)) + (y - z + Turns(k));
  }

  // ---- order statistics -------------------------------------------------

  function Insert(s: seq<real>, v: real): seq<real> {
    if s == [] || v <= s[0] then [v] + s else [s[0]] + Insert(s[1..], v)
  }

  /** What Python's `sorted` returns; `SortedIsSorted` and `SortedUnique` pin it down. */
  function Sorted(values: seq<real>): seq<real> {
    if values == [] then [] else Insert(Sorted(values[1..]), values[0])
  }

  predicate Ascending(s: seq<real>) {
    forall i, j :: 0 <= i < j < |s| ==> s[i] <= s[j]
  }

  lemma {:induction false} InsertContents(s: seq<real>, v: real)
    ensures multiset(Insert(s, v)) == multiset(s) + multiset{v}
    ensures |Insert(s, v)| == |s| + 1
  {
    if s == [] || v <= s[0] {
    } else {
      InsertContents(s[1..], v);
      assert s == [s[0]] + s[1..];
    }
  }

  lemma {:induction false} InsertAscending(s: seq<real>, v: real)
    requires Ascending(s)
    ensures Ascending(Insert(s, v))
  {
    if s == [] || v <= s[0] {
    } else {
      InsertAscending(s[1..], v);
      InsertContents(s[1..], v);
      var rest := Insert(s[1..], v);
      forall i | 0 <= i < |rest|
        ensures s[0] <= rest[i]
      {
        assert rest[i] in multiset(rest);
      }
    }
  }

  lemma {:induction false} SortedIsSorted(values: seq<real>)
    ensures Ascending(Sorted(values)) && multiset(Sorted(values)) == multiset(values)
    ensures |Sorted(values)| == |values|
  {
    if values == [] {
    } else {
      SortedIsSorted(values[1..]);
      InsertContents(Sorted(values[1..]), values[0]);
      InsertAscending(Sorted(values[1..]), values[0]);
      assert values == [values[0]] + values[1..];
    }
  }

  lemma {:induction false} SortedUnique(s: seq<real>, t: seq<real>)
    requires Ascending(s) && Ascending(t) && multiset(s) == multiset(t)
    ensures s == t
    decreases |s|
  {
    assert |s| == |multiset(s)| == |multiset(t)| == |t|;
    if s == [] {
    } else {
      LeastFirst(s, t);
      TailContents(s);
      TailContents(t);
      SortedUnique(s[1..], t[1..]);
      assert s == [s[0]] + s[1..] && t == [t[0]] + t[1..];
    }
  }

  lemma LeastFirst(s: seq<real>, t: seq<real>)
    requires Ascending(s) && Ascending(t) && multiset(s) == multiset(t)
    requires s != [] && t != []
    ensures s[0] == t[0]
  {
    SameMembers(s, t);
    assert s[0] in s && t[0] in t;
    var i :| 0 <= i < |t| && t[i] == s[0];
    var j :| 0 <= j < |s| && s[j] == t[0];
  }

  lemma TailContents(s: seq<real>)
    requires s != []
    ensures multiset(s[1..]) == multiset(s) - multiset{s[0]}
  {
    assert s == [s[0]] + s[1..];
  }

  /** `int(len(s) * 0.99)`, never past the end. */
  function P99Index(n: nat): nat
    requires n > 0
  {
    var i := (n as real * 0.99).Floor;
    if n - 1 <= i then n - 1 else i
  }

  datatype Quantiles = Quantiles(median: real, p99: real, max: real)

  function QuantilesOf(values: seq<real>): Quantiles {
    if values == [] then Quantiles(0.0, 0.0, 0.0)
    else
      SortedIsSorted(values);
      var s := Sorted(values);
      Quantiles(s[|s| / 2], s[P99Index(|s|)], s[|s| - 1])
  }

  function CountAtMost(values: seq<real>, bound: real): nat {
    if values == [] then 0 else CountAtMost(values[1..], bound) + if values[0] <= bound then 1 else 0
  }

  lemma {:induction false} CountInsert(s: seq<real>, v: real, bound: real)
    ensures CountAtMost(Insert(s, v), bound) == CountAtMost(s, bound) + if v <= bound then 1 else 0
  {
    if s != [] && v > s[0] {
      CountInsert(s[1..], v, bound);
    } else {
      assert ([v] + s)[1..] == s;
    }
  }

  lemma {:induction false} CountSorted(values: seq<real>, bound: real)
    ensures CountAtMost(Sorted(values), bound) == CountAtMost(values, bound)
  {
    if values == [] {
    } else {
      CountSorted(values[1..], bound);
      CountInsert(Sorted(values[1..]), values[0], bound);
    }
  }

  /** In an ascending list at least k + 1 entries do not exceed the k-th. */
  lemma {:induction false} CountAscending(s: seq<real>, k: nat, bound: real)
    requires Ascending(s) && k < |s| && s[k] <= bound
    ensures CountAtMost(s, bound) >= k + 1
  {
    if k == 0 {
    } else {
      assert s[0] <= s[k];
      CountAscending(s[1..], k - 1, bound);
    }
  }

  /** The order of the samples does not matter. */
  lemma QuantilesPermutationInvariant(u: seq<real>, v: seq<real>)
    requires multiset(u) == multiset(v)
    ensures QuantilesOf(u) == QuantilesOf(v)
  {
    SortedIsSorted(u);
    SortedIsSorted(v);
    SortedUnique(Sorted(u), Sorted(v));
    assert |u| == |multiset(u)| == |multiset(v)| == |v|;
  }

  /** For a non-empty list: median <= p99 <= max, all three are samples, and no sample exceeds
      the maximum. */
  lemma QuantilesOrdered(values: seq<real>)
    requires values != []
    ensures var q := QuantilesOf(values);
      && q.median <= q.p99 <= q.max
      && q.median in values && q.p99 in values && q.max in values
      && forall v :: v in values ==> v <= q.max
  {
    hide Sorted;
    SortedIsSorted(values);
    P99Position(|values|);
    var s, n := Sorted(values), |values|;
    SameMembers(s, values);
    assert s[n / 2] in s && s[P99Index(n)] in s && s[n - 1] in s;
  }

  lemma SameMembers(s: seq<real>, t: seq<real>)
    requires multiset(s) == multiset(t)
    ensures forall v :: v in s <==> v in t
  {
    assert forall v :: v in s <==> v in multiset(s);
    assert forall v :: v in t <==> v in multiset(t);
  }

  /** More than half of the samples do not exceed the median, and more than 99% do not exceed p99. */
  lemma QuantileShares(values: seq<real>)
    requires values != []
    ensures var q := QuantilesOf(values);
      && 2 * CountAtMost(values, q.median) > |values|
      && CountAtMost(values, q.p99) as real > 0.99 * |values| as real
  {
    hide Sorted, CountAtMost;
    SortedIsSorted(values);
    var s, n := Sorted(values), |values|;
    var q := QuantilesOf(values);
    P99Position(n);
    CountAscending(s, n / 2, q.median);
    CountAscending(s, P99Index(n), q.p99);
    CountSorted(values, q.median);
    CountSorted(values, q.p99);
  }

  function CountAtLeast(values: seq<real>, bound: real): nat {
    if values == [] then 0 else CountAtLeast(values[1..], bound) + if values[0] >= bound then 1 else 0
  }

  lemma {:induction false} AtLeastInsert(s: seq<real>, v: real, bound: real)
    ensures CountAtLeast(Insert(s, v), bound) == CountAtLeast(s, bound) + if v >= bound then 1 else 0
  {
    if s == [] || v <= s[0] {
      assert ([v] + s)[1..] == s;
    } else {
      AtLeastInsert(s[1..], v, bound);
    }
  }

  lemma {:induction false} AtLeastSorted(values: seq<real>, bound: real)
    ensures CountAtLeast(Sorted(values), bound) == CountAtLeast(values, bound)
  {
    if values == [] {
    } else {
      AtLeastSorted(values[1..], bound);
      AtLeastInsert(Sorted(values[1..]), values[0], bound);
    }
  }

  /** In an ascending list at least the entries from the k-th on are no less than it. */
  lemma {:induction false} AtLeastAscending(s: seq<real>, k: nat, bound: real)
    requires Ascending(s) && k < |s| && s[k] >= bound
    ensures CountAtLeast(s, bound) >= |s| - k
    decreases |s|
  {
    if k > 0 {
      AtLeastAscending(s[1..], k - 1, bound);
    } else if |s| > 1 {
      AtLeastAscending(s[1..], 0, bound);
    }
  }

  /** From the other side: at least half of the samples are no less than the median, at least one in a
      hundred no less than p99. With `QuantileShares` this places both. */
  lemma UpperShares(values: seq<real>)
    requires values != []
    ensures var q := QuantilesOf(values);
      && 2 * CountAtLeast(values, q.median) >= |values|
      && CountAtLeast(values, q.p99) as real >= 0.01 * |values| as real
  {
    hide Sorted, CountAtLeast;
    SortedIsSorted(values);
    var s, n := Sorted(values), |values|;
    var q := QuantilesOf(values);
    P99Position(n);
    AtLeastAscending(s, n / 2, q.median);
    AtLeastAscending(s, P99Index(n), q.p99);
    AtLeastSorted(values, q.median);
    AtLeastSorted(values, q.p99);
    assert (n - P99Index(n)) as real >= 0.01 * n as real by {
      assert P99Index(n) as real <= n as real * 0.99;
    }
  }

  lemma P99Position(n: nat)
    requires n > 0
    ensures n / 2 <= P99Index(n) < n
    ensures (P99Index(n) + 1) as real > 0.99 * n as real
  {
    var x := n as real * 0.99;
    assert (n / 2) as real <= x;
    assert x.Floor as real <= x < (x.Floor + 1) as real;
  }
}
