/** Counting dictionaries (`defaultdict(int)`), their totals, and the
    maximum and minimum of a finite set of numbers (`max(...)`, `min(...)`). */
module Maps {

  /** `d[k]` on a `defaultdict(int)`: a missing key reads as zero. */
  function Count<K>(m: map<K, nat>, k: K): nat
  {
    if k in m then m[k] else 0
  }

  /** `d[k] += 1` on a `defaultdict(int)`. */
  function Bump<K>(m: map<K, nat>, k: K): (r: map<K, nat>)
    ensures r.Keys == m.Keys + {k}
    ensures Count(r, k) == Count(m, k) + 1
  {
    m[k := Count(m, k) + 1]
  }

  /** The sum of all the counts in a map. */
  ghost function Sum<K>(m: map<K, nat>): nat
    decreases |m|
  {
    if m == map[] then 0
    else
      var k :| k in m;
      assert |m - {k}| < |m| by { assert (m - {k}).Keys == m.Keys - {k}; }
      m[k] + Sum(m - {k})
  }

  /** The sum does not depend on which key is taken out first. */
  lemma {:induction false} SumPick<K>(m: map<K, nat>, k: K)
    requires k in m
    ensures Sum(m) == m[k] + Sum(m - {k})
    decreases |m|
  {
    var j :| j in m && Sum(m) == m[j] + Sum(m - {j});
    if j != k {
      assert |m - {j}| < |m| by { assert (m - {j}).Keys == m.Keys - {j}; }
      assert |m - {k}| < |m| by { assert (m - {k}).Keys == m.Keys - {k}; }
      SumPick(m - {j}, k);
      SumPick(m - {k}, j);
      assert m - {j} - {k} == m - {k} - {j};
    }
  }

  /** Each `+= 1` raises the total by exactly one. */
  lemma SumBump<K>(m: map<K, nat>, k: K)
    ensures Sum(Bump(m, k)) == Sum(m) + 1
  {
    var r := Bump(m, k);
    SumPick(r, k);
    if k in m {
      SumPick(m, k);
      assert r - {k} == m - {k};
    } else {
      assert r - {k} == m;
    }
  }

  /** Some element of a non-empty set, for loops that visit a set one element at a time. */
  method Choose<T>(s: set<T>) returns (x: T)
    requires s != {}
    ensures x in s
  {
    x :| x in s;
  }

  /** A key under which a map holds a given value. */
  ghost function KeyOf<K, V>(m: map<K, V>, v: V): (k: K)
    requires v in m.Values
    ensures k in m && m[k] == v
  {
    var k :| k in m && m[k] == v; k
  }

  ghost predicate IsMax(s: set<real>, x: real)
  {
    x in s && forall y :: y in s ==> y <= x
  }

  ghost predicate IsMin(s: set<real>, x: real)
  {
    x in s && forall y :: y in s ==> x <= y
  }

  /** Some element of a non-empty set. */
  ghost function SetPick<T>(s: set<T>): (x: T)
    requires s != {}
    ensures x in s
  {
    assert |s| > 0;
    var x :| x in s; x
  }

  lemma {:induction false} ExtremaExist(s: set<real>)
    requires s != {}
    ensures exists x :: IsMax(s, x)
    ensures exists x :: IsMin(s, x)
    decreases |s|
  {
    var y := SetPick(s);
    if s == {y} {
      assert IsMax(s, y) && IsMin(s, y);
    } else {
      ExtremaExist(s - {y});
      var hi :| IsMax(s - {y}, hi);
      var lo :| IsMin(s - {y}, lo);
      assert forall z :: z in s ==> z == y || z in s - {y};
      if y <= hi { assert IsMax(s, hi); } else { assert IsMax(s, y); }
      if lo <= y { assert IsMin(s, lo); } else { assert IsMin(s, y); }
    }
  }

  /** `max(s)` of a non-empty collection. */
  ghost function SetMax(s: set<real>): (x: real)
    requires s != {}
    ensures IsMax(s, x)
  {
    ExtremaExist(s);
    var x :| IsMax(s, x); x
  }

  /** `min(s)` of a non-empty collection. */
  ghost function SetMin(s: set<real>): (x: real)
    requires s != {}
    ensures IsMin(s, x)
  {
    ExtremaExist(s);
    var x :| IsMin(s, x); x
  }

  /** `max(m.values())`, computed by one pass over the keys. */
  method MaxValue<K>(m: map<K, real>) returns (mx: real)
    requires m != map[]
    ensures mx == SetMax(m.Values)
  {
    var todo := m.Keys;
    var k :| k in todo;
    mx := m[k];
    todo := todo - {k};
    while todo != {}
      invariant todo <= m.Keys
      invariant mx in m.Values
      invariant forall j :: j in m && j !in todo ==> m[j] <= mx
      decreases todo
    {
      var j :| j in todo;
      if m[j] > mx {
        mx := m[j];
      }
      todo := todo - {j};
    }
    var top := SetMax(m.Values);
    assert mx <= top;
    assert top <= mx by {
      var j :| j in m && m[j] == top;
    }
  }
}
