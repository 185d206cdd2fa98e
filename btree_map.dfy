/**
 * `std::collections::BTreeMap<String, V>` as the overlay uses it: an association list
 * whose keys are strictly increasing. That list is at once the map and its iteration
 * order (`iter()` yields entries in ascending key order).
 */
module BTreeMaps {
  import opened StringOrder
  import opened Wrappers

  /** Keys strictly ascending, hence also pairwise distinct. */
  predicate Ordered<V>(e: seq<(string, V)>) {
    forall i, j :: 0 <= i < j < |e| ==> Less(e[i].0, e[j].0)
  }

  type BTreeMap<V> = e: seq<(string, V)> | Ordered(e) witness []

  function Keys<V>(e: seq<(string, V)>): set<string> {
    set i | 0 <= i < |e| :: e[i].0
  }

  /** The abstract map an association list denotes (an earlier entry shadows a later one). */
  function ToMap<V>(e: seq<(string, V)>): map<string, V> {
    if e == [] then map[] else ToMap(e[1..])[e[0].0 := e[0].1]
  }

  /** Looks a key up in the denoted map; a helper for stating laws about chains of builders. */
  function Get<V>(e: seq<(string, V)>, k: string): (r: Option<V>)
    ensures r.Some? <==> k in ToMap(e)
    ensures r.Some? ==> r.value == ToMap(e)[k]
  {
    if k in ToMap(e) then Some(ToMap(e)[k]) else None
  }

  lemma {:induction false} ToMapKeys<V>(e: seq<(string, V)>)
    ensures ToMap(e).Keys == Keys(e)
  {
    if e != [] {
      ToMapKeys(e[1..]);
      assert Keys(e) == Keys(e[1..]) + {e[0].0} by {
        forall x | x in Keys(e) ensures x in Keys(e[1..]) + {e[0].0} {
          var i :| 0 <= i < |e| && e[i].0 == x;
          if i > 0 { assert e[1..][i - 1].0 == x; }
        }
      }
    }
  }

  lemma TailOrdered<V>(e: seq<(string, V)>)
    requires Ordered(e) && e != []
    ensures Ordered(e[1..])
  {
  }

  /** Putting an entry in front of an ordered list whose keys are all larger keeps it ordered. */
  lemma ConsOrdered<V>(p: (string, V), t: seq<(string, V)>)
    requires Ordered(t)
    requires forall i :: 0 <= i < |t| ==> Less(p.0, t[i].0)
    ensures Ordered([p] + t)
  {
  }

  /** The first key of an ordered list is below every other key. */
  lemma HeadBelowTail<V>(e: seq<(string, V)>, x: string)
    requires Ordered(e) && e != []
    requires x in Keys(e[1..])
    ensures Less(e[0].0, x)
  {
  }

  /** The head key of an ordered list does not occur again in its tail. */
  lemma HeadNotInTail<V>(e: seq<(string, V)>)
    requires Ordered(e) && e != []
    ensures e[0].0 !in Keys(e[1..])
  {
    if e[0].0 in Keys(e[1..]) {
      HeadBelowTail(e, e[0].0);
      LessIrreflexive(e[0].0);
    }
  }

  lemma KeysCons<V>(p: (string, V), t: seq<(string, V)>)
    ensures Keys([p] + t) == Keys(t) + {p.0}
    ensures ToMap([p] + t) == ToMap(t)[p.0 := p.1]
  {
    var e := [p] + t;
    assert e[0] == p && e[1..] == t;
    forall x | x in Keys(e) ensures x in Keys(t) + {p.0} {
      var i :| 0 <= i < |e| && e[i].0 == x;
      if i > 0 { assert t[i - 1].0 == x; }
    }
    forall x | x in Keys(t) ensures x in Keys(e) {
      var i :| 0 <= i < |t| && t[i].0 == x;
      assert e[i + 1].0 == x;
    }
  }

  /** Insert, first case: `k` is the head key, whose value is replaced. */
  lemma InsertReplacesHead<V>(m: seq<(string, V)>, k: string, v: V)
    requires Ordered(m) && m != [] && k == m[0].0
    ensures Ordered([(k, v)] + m[1..])
    ensures Keys([(k, v)] + m[1..]) == Keys(m) + {k}
    ensures ToMap([(k, v)] + m[1..]) == ToMap(m)[k := v]
    ensures |[(k, v)] + m[1..]| == |m| && k in Keys(m)
  {
    TailOrdered(m);
    forall i | 0 <= i < |m[1..]| ensures Less(k, m[1..][i].0) {
      assert m[1..][i].0 in Keys(m[1..]);
      HeadBelowTail(m, m[1..][i].0);
    }
    ConsOrdered((k, v), m[1..]);
    KeysCons((k, v), m[1..]);
    KeysCons(m[0], m[1..]);
    assert m == [m[0]] + m[1..];
  }

  /** Insert, second case: `k` is below every key and goes in front. */
  lemma InsertInFront<V>(m: seq<(string, V)>, k: string, v: V)
    requires Ordered(m) && (m == [] || Less(k, m[0].0))
    ensures Ordered([(k, v)] + m)
    ensures Keys([(k, v)] + m) == Keys(m) + {k}
    ensures ToMap([(k, v)] + m) == ToMap(m)[k := v]
    ensures k !in Keys(m)
  {
    forall i | 0 <= i < |m| ensures Less(k, m[i].0) {
      if i > 0 { LessTransitive(k, m[0].0, m[i].0); }
    }
    ConsOrdered((k, v), m);
    forall i | 0 <= i < |m| ensures m[i].0 != k {
      if m[i].0 == k { LessIrreflexive(k); }
    }
    KeysCons((k, v), m);
  }

  /** Insert, third case: `k` lies beyond the head and `t` is the tail with `k` inserted. */
  lemma InsertBehindHead<V>(m: seq<(string, V)>, k: string, v: V, t: seq<(string, V)>)
    requires Ordered(m) && m != [] && k != m[0].0 && !Less(k, m[0].0)
    requires Ordered(t)
    requires Keys(t) == Keys(m[1..]) + {k}
    requires ToMap(t) == ToMap(m[1..])[k := v]
    requires |t| == if k in Keys(m[1..]) then |m| - 1 else |m|
    ensures Ordered([m[0]] + t)
    ensures Keys([m[0]] + t) == Keys(m) + {k}
    ensures ToMap([m[0]] + t) == ToMap(m)[k := v]
    ensures |[m[0]] + t| == if k in Keys(m) then |m| else |m| + 1
  {
    LessTotal(k, m[0].0);
    forall i | 0 <= i < |t| ensures Less(m[0].0, t[i].0) {
      assert t[i].0 in Keys(t);
      if t[i].0 != k { HeadBelowTail(m, t[i].0); }
    }
    ConsOrdered(m[0], t);
    KeysCons(m[0], t);
    KeysCons(m[0], m[1..]);
    assert m == [m[0]] + m[1..];
  }

  /**
   * `m.insert(k, v)`: the entry for `k` is replaced when present and added in key order
   * otherwise. The result denotes `ToMap(m)[k := v]` (the last write wins), and it is one
   * entry longer exactly when `k` was not yet a key.
   */
  function Insert<V>(m: BTreeMap<V>, k: string, v: V): (r: BTreeMap<V>)
    ensures Keys(r) == Keys(m) + {k}
    ensures ToMap(r) == ToMap(m)[k := v]
    ensures |r| == if k in Keys(m) then |m| else |m| + 1
  {
    if m == [] || Less(k, m[0].0) then
      InsertInFront(m, k, v);
      [(k, v)] + m
    else if k == m[0].0 then
      InsertReplacesHead(m, k, v);
      [(k, v)] + m[1..]
    else
      TailOrdered(m);
      var t := Insert(m[1..], k, v);
      InsertBehindHead(m, k, v, t);
      [m[0]] + t
  }

  /** Dropping the head of an ordered list removes exactly its key from the map. */
  lemma TailMap<V>(a: seq<(string, V)>)
    requires Ordered(a) && a != []
    ensures ToMap(a[1..]) == ToMap(a) - {a[0].0}
    ensures a[0].0 in ToMap(a) && ToMap(a)[a[0].0] == a[0].1
  {
    HeadNotInTail(a);
    ToMapKeys(a[1..]);
  }

  /** Two ordered lists with the same keys start with the same (smallest) key. */
  lemma SameHead<V>(a: seq<(string, V)>, b: seq<(string, V)>)
    requires Ordered(a) && Ordered(b) && a != [] && b != []
    requires ToMap(a).Keys == ToMap(b).Keys
    ensures a[0].0 == b[0].0
  {
    if a[0].0 != b[0].0 {
      ToMapKeys(a);
      ToMapKeys(b);
      KeysCons(a[0], a[1..]);
      KeysCons(b[0], b[1..]);
      assert a == [a[0]] + a[1..] && b == [b[0]] + b[1..];
      assert a[0].0 in Keys(b[1..]) && b[0].0 in Keys(a[1..]);
      HeadBelowTail(a, b[0].0);
      HeadBelowTail(b, a[0].0);
      LessAsymmetric(a[0].0, b[0].0);
    }
  }

  lemma EmptyMap<V>(e: seq<(string, V)>)
    ensures ToMap(e) == map[] <==> e == []
  {
    if e != [] { assert e[0].0 in ToMap(e); }
  }

  /** An ordered list is uniquely determined by the map it denotes: the key order is canonical. */
  lemma {:induction false} OrderedUnique<V>(a: seq<(string, V)>, b: seq<(string, V)>)
    requires Ordered(a) && Ordered(b)
    requires ToMap(a) == ToMap(b)
    ensures a == b
  {
    EmptyMap(a);
    EmptyMap(b);
    if a != [] && b != [] {
      SameHead(a, b);
      TailOrdered(a);
      TailOrdered(b);
      TailMap(a);
      TailMap(b);
      OrderedUnique(a[1..], b[1..]);
      assert a == [a[0]] + a[1..] && b == [b[0]] + b[1..];
    }
  }
}
