/** Small types shared by the model, Go's 64-bit durations, and sums over finite maps. */
module Basics {

  datatype Option<+T> = None | Some(value: T)

  /** A UUID, as the number it encodes. */
  type RequestId = nat

  const MAX_DURATION: int := 0x7fff_ffff_ffff_ffff
  const MIN_DURATION: int := -0x8000_0000_0000_0000

  /** The value a 64-bit two's complement register holds after a computation with result x. */
  function Wrap64(x: int): (r: int)
    ensures MIN_DURATION <= r <= MAX_DURATION
    ensures MIN_DURATION <= x <= MAX_DURATION ==> r == x
  {
    (x - MIN_DURATION) % 0x1_0000_0000_0000_0000 + MIN_DURATION
  }

  /** Go's Time.Sub: the difference of two instants, saturating at the limits of a Duration. */
  function TimeSub(t: int, u: int): int {
    if t - u > MAX_DURATION then MAX_DURATION else if t - u < MIN_DURATION then MIN_DURATION else t - u
  }

  /** Sum of the values of a finite map. */
  ghost function SumMap<K>(m: map<K, int>): int {
    if m == map[] then 0 else
    var k :| k in m;
    m[k] + SumMap(m - {k})
  }

  /** Any key can be taken out of the sum first. */
  lemma {:induction false} SumMapTake<K>(m: map<K, int>, k: K)
    requires k in m
    ensures SumMap(m) == m[k] + SumMap(m - {k})
    decreases |m|
  {
    var j :| j in m && SumMap(m) == m[j] + SumMap(m - {j});
    if j != k {
      SumMapTake(m - {j}, k);
      SumMapTake(m - {k}, j);
      assert m - {j} - {k} == m - {k} - {j};
    }
  }

  lemma SumMapPut<K>(m: map<K, int>, k: K, v: int)
    ensures SumMap(m[k := v]) == SumMap(m - {k}) + v
    ensures k !in m ==> SumMap(m[k := v]) == SumMap(m) + v
  {
    SumMapTake(m[k := v], k);
    assert m[k := v] - {k} == m - {k};
    if k !in m {
      assert m - {k} == m;
    }
  }

  /** Adding entries with non-negative values never lowers the sum. */
  lemma {:induction false} SumMapMonotone<K>(small: map<K, int>, big: map<K, int>)
    requires forall k :: k in small ==> k in big && big[k] == small[k]
    requires forall k :: k in big && k !in small ==> big[k] >= 0
    ensures SumMap(small) <= SumMap(big)
    decreases |big|
  {
    if big != map[] {
      var k :| k in big;
      SumMapTake(big, k);
      if k in small {
        SumMapTake(small, k);
      } else {
        assert small - {k} == small;
      }
      SumMapMonotone(small - {k}, big - {k});
    } else {
      assert small == map[];
    }
  }
}
