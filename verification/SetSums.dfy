/** Sums over the entries of a finite map, in no particular order. */
module SetSums {

  ghost function SumOver<K>(ids: set<K>, f: map<K, int>): int
    requires ids <= f.Keys
  {
    if ids == {} then 0
    else
      var id :| id in ids;
      f[id] + SumOver(ids - {id}, f)
  }

  ghost function Sum<K>(f: map<K, int>): int {
    SumOver(f.Keys, f)
  }

  /** The sum does not depend on the order in which entries are taken. */
  lemma {:induction false} SumWithout<K>(ids: set<K>, f: map<K, int>, id: K)
    requires id in ids && ids <= f.Keys
    ensures SumOver(ids, f) == f[id] + SumOver(ids - {id}, f)
    decreases ids
  {
    var first :| first in ids && SumOver(ids, f) == f[first] + SumOver(ids - {first}, f);
    if first != id {
      SumWithout(ids - {first}, f, id);
      SumWithout(ids - {id}, f, first);
      assert ids - {first} - {id} == ids - {id} - {first};
    }
  }

  lemma {:induction false} SumAgrees<K>(ids: set<K>, f: map<K, int>, g: map<K, int>)
    requires ids <= f.Keys && ids <= g.Keys
    requires forall id :: id in ids ==> f[id] == g[id]
    ensures SumOver(ids, f) == SumOver(ids, g)
    decreases ids
  {
    if ids != {} {
      var id :| id in ids;
      SumWithout(ids, f, id);
      SumWithout(ids, g, id);
      SumAgrees(ids - {id}, f, g);
    }
  }

  lemma {:induction false} SumOfZeros<K>(ids: set<K>, f: map<K, int>)
    requires ids <= f.Keys && forall id :: id in ids ==> f[id] == 0
    ensures SumOver(ids, f) == 0
    decreases ids
  {
    if ids != {} {
      var id :| id in ids;
      SumWithout(ids, f, id);
      SumOfZeros(ids - {id}, f);
    }
  }

  /** Removing an entry takes its value out of the sum. */
  lemma SumRemove<K>(f: map<K, int>, id: K)
    ensures Sum(f - {id}) == Sum(f) - (if id in f then f[id] else 0)
  {
    var g := f - {id};
    if id in f {
      SumWithout(f.Keys, f, id);
      assert g.Keys == f.Keys - {id};
      SumAgrees(g.Keys, f, g);
    } else {
      assert g == f;
    }
  }

  /** Setting an entry replaces its value in the sum. */
  lemma SumSet<K>(f: map<K, int>, id: K, v: int)
    ensures Sum(f[id := v]) == Sum(f) - (if id in f then f[id] else 0) + v
  {
    var g := f[id := v];
    SumRemove(f, id);
    SumRemove(g, id);
    assert g - {id} == f - {id};
  }

  lemma {:induction false} SumBounds<K>(ids: set<K>, f: map<K, int>, id: K)
    requires ids <= f.Keys && forall k :: k in ids ==> f[k] >= 0
    ensures SumOver(ids, f) >= 0
    ensures id in ids ==> SumOver(ids, f) >= f[id]
    decreases ids
  {
    if ids != {} {
      var k := if id in ids then id else (var x :| x in ids; x);
      SumWithout(ids, f, k);
      SumBounds(ids - {k}, f, k);
    }
  }

  /** The sum of sums is the sum of the sums of the entries. */
  lemma {:induction false} SumPlus<K>(ids: set<K>, f: map<K, int>, g: map<K, int>, h: map<K, int>)
    requires ids <= f.Keys && ids <= g.Keys && ids <= h.Keys
    requires forall id :: id in ids ==> f[id] + g[id] == h[id]
    ensures SumOver(ids, f) + SumOver(ids, g) == SumOver(ids, h)
    decreases ids
  {
    if ids != {} {
      var id :| id in ids;
      SumWithout(ids, f, id);
      SumWithout(ids, g, id);
      SumWithout(ids, h, id);
      SumPlus(ids - {id}, f, g, h);
    }
  }
}
