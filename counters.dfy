/** Upsert-increment of daily counters, as localStorage objects and the counter tables hold them. */
module Counters {

  /** The counter for `k`, 0 when it has never been counted. */
  function Count<K>(m: map<K, int>, k: K): int
  {
    if k in m then m[k] else 0
  }

  /** Raises the counter for `k` by one, starting from 0 when absent; no other key changes. */
  function Bump<K>(m: map<K, int>, k: K): (r: map<K, int>)
    ensures r.Keys == m.Keys + {k}
    ensures r[k] == Count(m, k) + 1
    ensures forall j | j in m && j != k :: r[j] == m[j]
  {
    m[k := Count(m, k) + 1]
  }

  /** `n` increments of the same key, one after another. */
  function BumpTimes<K>(m: map<K, int>, k: K, n: nat): map<K, int>
  {
    if n == 0 then m else Bump(BumpTimes(m, k, n - 1), k)
  }

  /** `n` increments of one key raise it by exactly `n` and leave every other key as it was. */
  lemma {:induction false} BumpedRepeatedly<K>(m: map<K, int>, k: K, n: nat)
    ensures Count(BumpTimes(m, k, n), k) == Count(m, k) + n
    ensures forall j | j != k :: Count(BumpTimes(m, k, n), j) == Count(m, j)
    ensures n > 0 ==> BumpTimes(m, k, n).Keys == m.Keys + {k}
  {
    if n > 0 {
      BumpedRepeatedly(m, k, n - 1);
    }
  }

  /** The inner counters of a per-day object of per-platform counters. */
  function Inner(m: map<string, map<string, int>>, day: string): map<string, int>
  {
    if day in m then m[day] else map[]
  }

  /** Raises the counter of `platform` on `day` by one; every other day and platform keeps its count. */
  function BumpNested(m: map<string, map<string, int>>, day: string, platform: string)
    : (r: map<string, map<string, int>>)
    ensures r.Keys == m.Keys + {day}
    ensures r[day] == Bump(Inner(m, day), platform)
    ensures forall d | d in m && d != day :: r[d] == m[d]
  {
    m[day := Bump(Inner(m, day), platform)]
  }
}
