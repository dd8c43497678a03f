/**
 * The database values the endpoints store and the ordering `ORDER BY ... DESC LIMIT n`
 * imposes on query results.
 */
module Sql {
  import opened Values
  import Text

  /** A column value: SQL NULL or text (PDO binds every parameter as a string). */
  datatype Cell = Null | Str(s: string)

  /** PHP's string conversion of a bound parameter: null stays NULL. */
  function Bind(v: Json): (c: Cell)
    ensures c.Null? <==> v == JNull
    ensures v.JStr? ==> c == Str(v.s)
  {
    match v
    case JNull => Null
    case JBool(b) => Str(if b then "1" else "")
    case JInt(i) => Str(Text.IntToString(i))
    case JStr(s) => Str(s)
    case JList(_) => Str("Array")
    case JObject(_) => Str("Array")
  }

  /** Lexicographic order on text by character code. */
  predicate TextLe(a: string, b: string)
    decreases |a|
  {
    a == [] || (b != [] && (a[0] < b[0] || (a[0] == b[0] && TextLe(a[1..], b[1..]))))
  }

  lemma {:induction false} TextLeTotal(a: string, b: string)
    ensures TextLe(a, b) || TextLe(b, a)
    decreases |a|
  {
    if a != [] && b != [] && a[0] == b[0] {
      TextLeTotal(a[1..], b[1..]);
    }
  }

  lemma {:induction false} TextLeTransitive(a: string, b: string, c: string)
    requires TextLe(a, b) && TextLe(b, c)
    ensures TextLe(a, c)
    decreases |a|
  {
    if a != [] && b != [] && c != [] && a[0] == b[0] == c[0] {
      TextLeTransitive(a[1..], b[1..], c[1..]);
    }
  }

  /** The order of `ORDER BY` on a text column: NULL first, then text lexicographically. */
  predicate CellLe(a: Cell, b: Cell)
  {
    a.Null? || (b.Str? && TextLe(a.s, b.s))
  }

  lemma CellLeTotal(a: Cell, b: Cell)
    ensures CellLe(a, b) || CellLe(b, a)
  {
    if a.Str? && b.Str? {
      TextLeTotal(a.s, b.s);
    }
  }

  lemma CellLeTransitive(a: Cell, b: Cell, c: Cell)
    requires CellLe(a, b) && CellLe(b, c)
    ensures CellLe(a, c)
  {
    if a.Str? {
      TextLeTransitive(a.s, b.s, c.s);
    }
  }

  /** `xs` is in `ORDER BY key DESC` order. */
  ghost predicate SortedDesc<T>(xs: seq<T>, key: T -> Cell)
  {
    forall i, j :: 0 <= i < j < |xs| ==> CellLe(key(xs[j]), key(xs[i]))
  }

  /** Places `x` before the first element whose key is not greater than its own. */
  function Insert<T>(x: T, xs: seq<T>, key: T -> Cell): (r: seq<T>)
    requires SortedDesc(xs, key)
    ensures SortedDesc(r, key)
    ensures multiset(r) == multiset(xs) + multiset{x}
  {
    if xs == [] then [x]
    else if CellLe(key(xs[0]), key(x)) then
      InsertFront(x, xs, key);
      [x] + xs
    else
      var rest := Insert(x, xs[1..], key);
      InsertBehind(x, xs, key, rest);
      assert xs == [xs[0]] + xs[1..];
      [xs[0]] + rest
  }

  lemma InsertFront<T>(x: T, xs: seq<T>, key: T -> Cell)
    requires xs != [] && SortedDesc(xs, key) && CellLe(key(xs[0]), key(x))
    ensures SortedDesc([x] + xs, key)
  {
    var r := [x] + xs;
    forall i, j | 0 <= i < j < |r| ensures CellLe(key(r[j]), key(r[i])) {
      if i == 0 && j > 1 {
        CellLeTransitive(key(xs[j - 1]), key(xs[0]), key(x));
      }
    }
  }

  lemma InsertBehind<T>(x: T, xs: seq<T>, key: T -> Cell, rest: seq<T>)
    requires xs != [] && SortedDesc(xs, key) && !CellLe(key(xs[0]), key(x))
    requires SortedDesc(rest, key) && multiset(rest) == multiset(xs[1..]) + multiset{x}
    ensures SortedDesc([xs[0]] + rest, key)
  {
    CellLeTotal(key(xs[0]), key(x));
    var r := [xs[0]] + rest;
    forall i, j | 0 <= i < j < |r| ensures CellLe(key(r[j]), key(r[i])) {
      if i == 0 {
        var y := rest[j - 1];
        assert y in multiset(rest);
        if y != x {
          assert y in multiset(xs[1..]);
          var k :| 0 <= k < |xs[1..]| && xs[1..][k] == y;
          assert xs[k + 1] == y;
        }
      }
    }
  }

  /** Sorts by `key`, largest first: the row order of `ORDER BY key DESC`. */
  function SortDesc<T>(xs: seq<T>, key: T -> Cell): (r: seq<T>)
    ensures SortedDesc(r, key)
    ensures multiset(r) == multiset(xs)
  {
    if xs == [] then []
    else
      assert xs == [xs[0]] + xs[1..];
      Insert(xs[0], SortDesc(xs[1..], key), key)
  }

  /**
   * `ORDER BY key DESC LIMIT n`: the first `n` rows of the sorted result. Every row left
   * out has a key no greater than any row kept.
   */
  function Latest<T>(xs: seq<T>, key: T -> Cell, n: nat): (r: seq<T>)
    ensures |r| == if |xs| < n then |xs| else n
    ensures SortedDesc(r, key)
    ensures multiset(r) <= multiset(xs)
    ensures forall y, z :: y in multiset(xs) - multiset(r) && z in r ==> CellLe(key(y), key(z))
  {
    var sorted := SortDesc(xs, key);
    var k := if |sorted| < n then |sorted| else n;
    LatestPrefix(sorted, key, k);
    sorted[..k]
  }

  lemma LatestPrefix<T>(sorted: seq<T>, key: T -> Cell, k: nat)
    requires k <= |sorted| && SortedDesc(sorted, key)
    ensures multiset(sorted[..k]) <= multiset(sorted)
    ensures forall y, z :: y in multiset(sorted) - multiset(sorted[..k]) && z in sorted[..k] ==>
      CellLe(key(y), key(z))
  {
    assert sorted == sorted[..k] + sorted[k..];
    assert multiset(sorted) == multiset(sorted[..k]) + multiset(sorted[k..]);
    forall y, z | y in multiset(sorted) - multiset(sorted[..k]) && z in sorted[..k]
      ensures CellLe(key(y), key(z))
    {
      assert y in multiset(sorted[k..]);
      var a :| 0 <= a < |sorted[k..]| && sorted[k..][a] == y;
      var b :| 0 <= b < k && sorted[..k][b] == z;
      assert sorted[k + a] == y && sorted[b] == z;
    }
  }

  /** The rows of a keyed table, once each, in no particular order. */
  method Entries<K, V>(m: map<K, V>) returns (rows: seq<(K, V)>)
    ensures forall p | p in rows :: p.0 in m && m[p.0] == p.1
    ensures forall k | k in m :: (k, m[k]) in rows
    ensures forall i, j | 0 <= i < j < |rows| :: rows[i].0 != rows[j].0
    ensures |rows| == |m|
  {
    var pending := m.Keys;
    rows := [];
    while pending != {}
      invariant pending <= m.Keys
      invariant forall p | p in rows :: p.0 in m && m[p.0] == p.1 && p.0 !in pending
      invariant forall k | k in m.Keys - pending :: (k, m[k]) in rows
      invariant forall i, j | 0 <= i < j < |rows| :: rows[i].0 != rows[j].0
      invariant |rows| + |pending| == |m.Keys|
      decreases pending
    {
      var k :| k in pending;
      rows := rows + [(k, m[k])];
      pending := pending - {k};
    }
  }

  /**
   * What `SELECT * FROM t ORDER BY key DESC LIMIT n` returns from the keyed table `m`:
   * min(n, |m|) of its rows, each at most once, sorted, and no row left out is later
   * than a row returned.
   */
  ghost predicate IsLatestOf<K, V>(r: seq<(K, V)>, m: map<K, V>, key: ((K, V)) -> Cell, n: nat)
  {
    && |r| == (if |m| < n then |m| else n)
    && SortedDesc(r, key)
    && (forall p | p in r :: p.0 in m && m[p.0] == p.1)
    && (forall i, j | 0 <= i < j < |r| :: r[i].0 != r[j].0)
    && (forall k, p | k in m && (k, m[k]) !in r && p in r :: CellLe(key((k, m[k])), key(p)))
  }

  /** `ORDER BY key DESC LIMIT n` over a keyed table. */
  method LatestEntries<K, V>(m: map<K, V>, key: ((K, V)) -> Cell, n: nat) returns (r: seq<(K, V)>)
    ensures IsLatestOf(r, m, key, n)
  {
    var rows := Entries(m);
    r := Latest(rows, key, n);
    forall p | p in r ensures p in rows {
      assert p in multiset(r);
    }
    forall i, j | 0 <= i < j < |r| ensures r[i].0 != r[j].0 {
      if r[i].0 == r[j].0 {
        assert r[i] == r[j];
        TwiceInMultiset(r, i, j);
        assert multiset(r)[r[i]] <= multiset(rows)[r[i]];
        OnceInMultiset(rows, r[i]);
      }
    }
    forall k, p | k in m && (k, m[k]) !in r && p in r
      ensures CellLe(key((k, m[k])), key(p))
    {
      assert (k, m[k]) in multiset(rows) - multiset(r);
    }
  }

  lemma TwiceInMultiset<T>(s: seq<T>, i: int, j: int)
    requires 0 <= i < j < |s| && s[i] == s[j]
    ensures multiset(s)[s[i]] >= 2
  {
    assert s == s[..j] + s[j..];
    assert s[i] in multiset(s[..j]);
    assert s[j] in multiset(s[j..]);
  }

  lemma OnceInMultiset<K, V>(rows: seq<(K, V)>, x: (K, V))
    requires forall i, j | 0 <= i < j < |rows| :: rows[i].0 != rows[j].0
    ensures multiset(rows)[x] <= 1
  {
    if rows != [] {
      var last := rows[|rows| - 1];
      var init := rows[..|rows| - 1];
      assert rows == init + [last];
      OnceInMultiset(init, x);
      if x == last {
        assert x !in init;
      }
    }
  }
}
