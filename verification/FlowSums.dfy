/** Totals accumulated by key, and the sums they conserve. */
module FlowSums {
  import opened Currency
  import opened Sums

  /** A contribution to the total kept under a key. */
  datatype Entry<K> = Entry(key: K, value: Amounts)

  function At<K(==)>(m: map<K, Amounts>, k: K): Amounts {
    if k in m then m[k] else map[]
  }

  /** Every contribution added under its key, in the order they come. */
  function Totals<K(==)>(entries: seq<Entry<K>>): map<K, Amounts> {
    if entries == [] then map[]
    else
      var m, last := Totals(entries[..|entries| - 1]), entries[|entries| - 1];
      m[last.key := AddAll(At(m, last.key), last.value)]
  }

  /** What the contributions under the selected keys come to in one currency. */
  function EntrySum<K>(entries: seq<Entry<K>>, p: K -> bool, code: string): int {
    if entries == [] then 0
    else
      var last := entries[|entries| - 1];
      EntrySum(entries[..|entries| - 1], p, code) + (if p(last.key) then Get(last.value, code) else 0)
  }

  ghost function Is<K>(k: K): K -> bool {
    x => x == k
  }

  ghost function Held<K>(m: map<K, Amounts>, code: string): K -> int {
    k => Get(At(m, k), code)
  }

  lemma {:induction false} TotalsKeys<K>(entries: seq<Entry<K>>)
    ensures forall k :: k in Totals(entries) <==> exists i :: 0 <= i < |entries| && entries[i].key == k
  {
    if entries != [] {
      TotalsKeys(entries[..|entries| - 1]);
    }
  }

  lemma {:induction false} TotalIsSum<K>(entries: seq<Entry<K>>, k: K, code: string)
    ensures Get(At(Totals(entries), k), code) == EntrySum(entries, Is(k), code)
  {
    if entries != [] {
      TotalIsSum(entries[..|entries| - 1], k, code);
    }
  }

  lemma {:induction false} SumZero<K>(s: set<K>, f: K -> int)
    requires forall k :: k in s ==> f(k) == 0
    ensures SumOver(s, f) == 0
  {
    if s != {} {
      var k :| k in s;
      SumRemove(s, f, k);
      SumZero(s - {k}, f);
    }
  }

  /** Two lists with the same values, selected alike, have the same sum. */
  lemma {:induction false} SameSelection<K, L>(a: seq<Entry<K>>, p: K -> bool, b: seq<Entry<L>>, q: L -> bool,
                                               code: string)
    requires |a| == |b|
    requires forall i :: 0 <= i < |a| ==> (p(a[i].key) <==> q(b[i].key)) && a[i].value == b[i].value
    ensures EntrySum(a, p, code) == EntrySum(b, q, code)
  {
    if a != [] {
      SameSelection(a[..|a| - 1], p, b[..|b| - 1], q, code);
    }
  }

  /** Totals over any set of keys add up to the contributions made to them. */
  lemma {:induction false} GroupSum<K>(entries: seq<Entry<K>>, s: set<K>, code: string)
    ensures SumOver(s, Held(Totals(entries), code)) == EntrySum(entries, k => k in s, code)
  {
    var p := k => k in s;
    if entries == [] {
      SumZero(s, Held(map[], code));
    } else {
      var init, last := entries[..|entries| - 1], entries[|entries| - 1];
      GroupSum(init, s, code);
      SameSelection(init, k => k in s, init, p, code);
      var before, after := Totals(init), Totals(entries);
      if last.key in s {
        SumBump(s, Held(before, code), Held(after, code), last.key);
      } else {
        SumSame(s, Held(before, code), Held(after, code));
      }
      SameSelection(entries, k => k in s, entries, p, code);
    }
  }

  lemma {:induction false} NoneSelected<K>(a: seq<Entry<K>>, p: K -> bool, code: string)
    requires forall i :: 0 <= i < |a| ==> !p(a[i].key)
    ensures EntrySum(a, p, code) == 0
  {
    if a != [] {
      NoneSelected(a[..|a| - 1], p, code);
    }
  }

  lemma {:induction false} SumOfBoth<K>(a: seq<Entry<K>>, b: seq<Entry<K>>, p: K -> bool, code: string)
    ensures EntrySum(a + b, p, code) == EntrySum(a, p, code) + EntrySum(b, p, code)
  {
    if b == [] {
      assert a + b == a;
    } else {
      assert (a + b)[..|a + b| - 1] == a + b[..|b| - 1];
      SumOfBoth(a, b[..|b| - 1], p, code);
    }
  }

  ghost predicate NonNegative<K(!new)>(entries: seq<Entry<K>>) {
    forall i, code :: 0 <= i < |entries| ==> Get(entries[i].value, code) >= 0
  }

  lemma {:induction false} SumNonNegative<K(!new)>(entries: seq<Entry<K>>, p: K -> bool, code: string)
    requires NonNegative(entries)
    ensures EntrySum(entries, p, code) >= 0
    ensures forall i :: 0 <= i < |entries| && p(entries[i].key) ==>
              EntrySum(entries, p, code) >= Get(entries[i].value, code)
    ensures EntrySum(entries, p, code) > 0 ==> exists i :: 0 <= i < |entries| && p(entries[i].key)
  {
    if entries != [] {
      SumNonNegative(entries[..|entries| - 1], p, code);
    }
  }

  // ----- contributions that draw nothing

  function PositivePart(m: Amounts): Amounts {
    map c | c in m && m[c] > 0 :: m[c]
  }

  /** The contributions with some positive amount, the rest of each dropped. */
  function Drawable<K>(entries: seq<Entry<K>>): seq<Entry<K>> {
    if entries == [] then []
    else
      var last := entries[|entries| - 1];
      Drawable(entries[..|entries| - 1])
          + (if PositivePart(last.value) == map[] then [] else [Entry(last.key, PositivePart(last.value))])
  }

  /** Without negative amounts nothing is lost by that. */
  lemma {:induction false} DrawableSum<K(!new)>(entries: seq<Entry<K>>, p: K -> bool, code: string)
    requires NonNegative(entries)
    ensures EntrySum(Drawable(entries), p, code) == EntrySum(entries, p, code)
  {
    if entries != [] {
      var init, last := entries[..|entries| - 1], entries[|entries| - 1];
      DrawableSum(init, p, code);
      assert Get(last.value, code) >= 0;
      var pos := PositivePart(last.value);
      assert Get(pos, code) == Get(last.value, code);
      var drawn := Drawable(entries);
      if pos != map[] {
        assert drawn == Drawable(init) + [Entry(last.key, pos)];
        assert drawn[..|drawn| - 1] == Drawable(init);
      } else {
        assert drawn == Drawable(init);
      }
    }
  }

  lemma {:induction false} DrawableKeys<K>(entries: seq<Entry<K>>, k: K)
    requires exists i :: 0 <= i < |Drawable(entries)| && Drawable(entries)[i].key == k
    ensures exists i, code :: 0 <= i < |entries| && entries[i].key == k && Get(entries[i].value, code) > 0
  {
    var last := entries[|entries| - 1];
    var init := entries[..|entries| - 1];
    if exists i :: 0 <= i < |Drawable(init)| && Drawable(init)[i].key == k {
      DrawableKeys(init, k);
      var i, code :| 0 <= i < |init| && init[i].key == k && Get(init[i].value, code) > 0;
      assert entries[i] == init[i];
    } else {
      var pos := PositivePart(last.value);
      assert pos != map[] && last.key == k;
      var code :| code in pos;
      assert Get(entries[|entries| - 1].value, code) > 0;
    }
  }
}
