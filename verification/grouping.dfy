/** The group-by and column-aggregate semantics the analyses rely on, stated
    over a sequence of rows and selector functions:
    - a selector `T -> Option<X>` reads one column; `None` is NaN;
    - aggregates (`sum`, `count`, `mean`, `median`) skip NaN;
    - `groupby` drops the rows whose key is NaN and forms one group per
      distinct present key, holding that key's rows in input order. */
module Grouping {
  import opened Values
  import opened Stats

  /** A present value as a one-element sequence, an absent one as empty. */
  function Opt<X>(o: Option<X>): seq<X>
  {
    match o
    case Some(x) => [x]
    case None => []
  }

  /** The present values a selector reads off the rows, in row order. */
  function Present<T, X>(rows: seq<T>, sel: T -> Option<X>): (xs: seq<X>)
    ensures |xs| <= |rows|
  {
    if |rows| == 0 then []
    else Present(rows[..|rows|-1], sel) + Opt(sel(rows[|rows|-1]))
  }

  lemma PresentSnoc<T, X>(rows: seq<T>, r: T, sel: T -> Option<X>)
    ensures Present(rows + [r], sel) == Present(rows, sel) + Opt(sel(r))
  {
    assert (rows + [r])[..|rows|] == rows;
  }

  lemma {:induction false} PresentAppend<T, X>(a: seq<T>, b: seq<T>, sel: T -> Option<X>)
    ensures Present(a + b, sel) == Present(a, sel) + Present(b, sel)
    decreases |b|
  {
    if |b| == 0 {
      assert a + b == a;
    } else {
      var b', x := b[..|b|-1], b[|b|-1];
      assert a + b == (a + b') + [x];
      assert b == b' + [x];
      PresentSnoc(a + b', x, sel);
      PresentAppend(a, b', sel);
      PresentSnoc(b', x, sel);
      calc {
        Present(a + b, sel);
        Present(a + b', sel) + Opt(sel(x));
        (Present(a, sel) + Present(b', sel)) + Opt(sel(x));
        Present(a, sel) + (Present(b', sel) + Opt(sel(x)));
        Present(a, sel) + Present(b, sel);
      }
    }
  }

  /** Every present value comes from some row. */
  lemma {:induction false} PresentFrom<T, X>(rows: seq<T>, sel: T -> Option<X>, x: X)
    requires x in Present(rows, sel)
    ensures exists i :: 0 <= i < |rows| && sel(rows[i]) == Some(x)
    decreases |rows|
  {
    var init := rows[..|rows|-1];
    if x in Present(init, sel) {
      PresentFrom(init, sel, x);
      var i :| 0 <= i < |init| && sel(init[i]) == Some(x);
      assert rows[i] == init[i];
    } else {
      assert sel(rows[|rows|-1]) == Some(x);
    }
  }

  /** Every row's present value is among the present values. */
  lemma {:induction false} PresentIncludes<T, X>(rows: seq<T>, sel: T -> Option<X>, i: int)
    requires 0 <= i < |rows| && sel(rows[i]).Some?
    ensures sel(rows[i]).value in Present(rows, sel)
    decreases |rows|
  {
    var init := rows[..|rows|-1];
    if i < |rows| - 1 {
      assert init[i] == rows[i];
      PresentIncludes(init, sel, i);
    }
  }

  /** Two columns that agree row by row have the same present values. */
  lemma {:induction false} SameColumn<T, U, X>(a: seq<T>, sa: T -> Option<X>, b: seq<U>, sb: U -> Option<X>)
    requires |a| == |b| && forall i :: 0 <= i < |a| ==> sa(a[i]) == sb(b[i])
    ensures Present(a, sa) == Present(b, sb)
    decreases |a|
  {
    if |a| > 0 {
      SameColumn(a[..|a|-1], sa, b[..|b|-1], sb);
    }
  }

  /** Sum of the present values (pandas `sum`; 0 when none). */
  function SumOf<T>(rows: seq<T>, sel: T -> Option<real>): real
  {
    Sum(Present(rows, sel))
  }

  function ValueOr0(o: Option<real>): real
  {
    o.GetOr(0.0)
  }

  lemma SumOfSnoc<T>(rows: seq<T>, r: T, sel: T -> Option<real>)
    ensures SumOf(rows + [r], sel) == SumOf(rows, sel) + ValueOr0(sel(r))
  {
    PresentSnoc(rows, r, sel);
    SumAppend(Present(rows, sel), Opt(sel(r)));
    assert Sum(Opt(sel(r))) == ValueOr0(sel(r)) by {
      match sel(r)
      case Some(x) => assert Sum([x]) == Sum([]) + x;
      case None =>
    }
  }

  /** Number of present values (pandas `count`). */
  function CountOf<T, X>(rows: seq<T>, sel: T -> Option<X>): nat
  {
    |Present(rows, sel)|
  }

  /** Mean of the present values (pandas `mean`; absent when none). */
  function MeanOf<T>(rows: seq<T>, sel: T -> Option<real>): (m: Option<real>)
    ensures m.Some? <==> CountOf(rows, sel) > 0
    ensures m.Some? ==> m.value * CountOf(rows, sel) as real == SumOf(rows, sel)
  {
    Mean(Present(rows, sel))
  }

  /** Median of the present values (pandas `median`; absent when none). */
  function MedianOf<T>(rows: seq<T>, sel: T -> Option<real>): (m: Option<real>)
    ensures m.Some? <==> CountOf(rows, sel) > 0
  {
    Median(Present(rows, sel))
  }

  /** The number of distinct present values (pandas `nunique`). */
  function DistinctCount<T, X(==)>(rows: seq<T>, sel: T -> Option<X>): nat
  {
    |set x | x in Present(rows, sel)|
  }

  /** The row itself, as a selector that is never absent; counting it counts rows. */
  function Itself<T>(r: T): Option<T>
  {
    Some(r)
  }

  lemma {:induction false} CountRows<T>(rows: seq<T>)
    ensures CountOf(rows, Itself) == |rows|
    decreases |rows|
  {
    if |rows| > 0 {
      CountRows(rows[..|rows|-1]);
    }
  }

  /** A composite group key, present when both parts are (pandas drops a row
      from a two-column groupby when either key is NaN). */
  function Both<A, B>(a: Option<A>, b: Option<B>): (r: Option<(A, B)>)
    ensures r.Some? <==> a.Some? && b.Some?
    ensures r.Some? ==> r.value == (a.value, b.value)
  {
    if a.Some? && b.Some? then Some((a.value, b.value)) else None
  }

  /** The rows of the group with key `k`, in input order. */
  function Where<T, K(==)>(rows: seq<T>, key: T -> Option<K>, k: K): (g: seq<T>)
    ensures |g| <= |rows|
  {
    if |rows| == 0 then []
    else Where(rows[..|rows|-1], key, k) + (if key(rows[|rows|-1]) == Some(k) then [rows[|rows|-1]] else [])
  }

  lemma WhereSnoc<T, K>(rows: seq<T>, r: T, key: T -> Option<K>, k: K)
    ensures Where(rows + [r], key, k) == Where(rows, key, k) + (if key(r) == Some(k) then [r] else [])
  {
    assert (rows + [r])[..|rows|] == rows;
  }

  /** A group holds exactly the rows carrying its key. */
  lemma {:induction false} WhereMembers<T, K>(rows: seq<T>, key: T -> Option<K>, k: K, r: T)
    ensures r in Where(rows, key, k) <==> r in rows && key(r) == Some(k)
    decreases |rows|
  {
    if |rows| > 0 {
      var init := rows[..|rows|-1];
      WhereMembers(init, key, k, r);
      assert rows == init + [rows[|rows|-1]];
    }
  }

  /** The rows that belong to some group at all. */
  function Keyed<T, K>(rows: seq<T>, key: T -> Option<K>): (g: seq<T>)
    ensures |g| <= |rows|
  {
    if |rows| == 0 then []
    else Keyed(rows[..|rows|-1], key) + (if key(rows[|rows|-1]).Some? then [rows[|rows|-1]] else [])
  }

  lemma KeyedSnoc<T, K>(rows: seq<T>, r: T, key: T -> Option<K>)
    ensures Keyed(rows + [r], key) == Keyed(rows, key) + (if key(r).Some? then [r] else [])
  {
    assert (rows + [r])[..|rows|] == rows;
  }

  /** When no key is absent, every row belongs to a group. */
  lemma {:induction false} KeyedAll<T, K>(rows: seq<T>, key: T -> Option<K>)
    requires forall i :: 0 <= i < |rows| ==> key(rows[i]).Some?
    ensures Keyed(rows, key) == rows
    decreases |rows|
  {
    if |rows| > 0 {
      var init := rows[..|rows|-1];
      KeyedAll(init, key);
      assert rows == init + [rows[|rows|-1]];
    }
  }

  /** The grouped rows are rows of the input. */
  lemma {:induction false} KeyedMembers<T, K>(rows: seq<T>, key: T -> Option<K>, r: T)
    requires r in Keyed(rows, key)
    ensures r in rows && key(r).Some?
    decreases |rows|
  {
    var init := rows[..|rows|-1];
    assert rows == init + [rows[|rows|-1]];
    if r in Keyed(init, key) {
      KeyedMembers(init, key, r);
    }
  }

  /** A group of rows that all carry the key is the whole input. */
  lemma {:induction false} WhereAll<T, K>(rows: seq<T>, key: T -> Option<K>, k: K)
    requires forall i :: 0 <= i < |rows| ==> key(rows[i]) == Some(k)
    ensures Where(rows, key, k) == rows
    decreases |rows|
  {
    if |rows| > 0 {
      var init := rows[..|rows|-1];
      WhereAll(init, key, k);
      assert rows == init + [rows[|rows|-1]];
    }
  }

  /** A key no row carries has an empty group. */
  lemma {:induction false} WhereNone<T, K>(rows: seq<T>, key: T -> Option<K>, k: K)
    requires forall i :: 0 <= i < |rows| ==> key(rows[i]) != Some(k)
    ensures Where(rows, key, k) == []
    decreases |rows|
  {
    if |rows| > 0 {
      WhereNone(rows[..|rows|-1], key, k);
    }
  }

  /** A column without an empty cell counts every row. */
  lemma {:induction false} CountAllPresent<T, X>(rows: seq<T>, sel: T -> Option<X>)
    requires forall r :: r in rows ==> sel(r).Some?
    ensures CountOf(rows, sel) == |rows|
    decreases |rows|
  {
    if |rows| > 0 {
      var init := rows[..|rows|-1];
      assert rows[|rows|-1] in rows;
      assert forall r :: r in init ==> r in rows;
      CountAllPresent(init, sel);
    }
  }

  /** The distinct present keys in order of first occurrence. */
  function Keys<T, K(==)>(rows: seq<T>, key: T -> Option<K>): (ks: seq<K>)
    ensures forall i, j :: 0 <= i < j < |ks| ==> ks[i] != ks[j]
  {
    if |rows| == 0 then []
    else
      var ks := Keys(rows[..|rows|-1], key);
      match key(rows[|rows|-1])
      case Some(k) => if k in ks then ks else ks + [k]
      case None => ks
  }

  /** A key is listed exactly when its group is non-empty. */
  lemma {:induction false} KeysMembers<T, K>(rows: seq<T>, key: T -> Option<K>, k: K)
    ensures k in Keys(rows, key) <==> |Where(rows, key, k)| > 0
    decreases |rows|
  {
    if |rows| > 0 {
      KeysMembers(rows[..|rows|-1], key, k);
    }
  }

  /** The set of group keys: one table row per key. */
  function KeySet<T, K(==)>(rows: seq<T>, key: T -> Option<K>): set<K>
  {
    set k | k in Keys(rows, key)
  }

  /** A key is a group key exactly when some row carries it. */
  lemma KeySetMembers<T, K>(rows: seq<T>, key: T -> Option<K>, k: K)
    ensures k in KeySet(rows, key) <==> exists i :: 0 <= i < |rows| && key(rows[i]) == Some(k)
  {
    KeysMembers(rows, key, k);
    if k in KeySet(rows, key) {
      var g := Where(rows, key, k);
      WhereMembers(rows, key, k, g[0]);
    } else {
      forall i | 0 <= i < |rows|
        ensures key(rows[i]) != Some(k)
      {
        WhereMembers(rows, key, k, rows[i]);
      }
    }
  }

  // ---------------------------------------------------------------------
  // Group totals add up to the column totals over the grouped rows.

  /** The sum, over the listed keys, of each group's column sum. */
  function GroupSums<T, K(==)>(ks: seq<K>, rows: seq<T>, key: T -> Option<K>, sel: T -> Option<real>): real
  {
    if |ks| == 0 then 0.0 else SumOf(Where(rows, key, ks[0]), sel) + GroupSums(ks[1..], rows, key, sel)
  }

  /** The sum, over the listed keys, of each group's count of present values. */
  function GroupCounts<T, K(==), X>(ks: seq<K>, rows: seq<T>, key: T -> Option<K>, sel: T -> Option<X>): nat
  {
    if |ks| == 0 then 0 else CountOf(Where(rows, key, ks[0]), sel) + GroupCounts(ks[1..], rows, key, sel)
  }

  function Indicator<X>(o: Option<X>): nat
  {
    if o.Some? then 1 else 0
  }

  lemma {:induction false} GroupSumsAppendKeys<T, K>(a: seq<K>, b: seq<K>, rows: seq<T>, key: T -> Option<K>, sel: T -> Option<real>)
    ensures GroupSums(a + b, rows, key, sel) == GroupSums(a, rows, key, sel) + GroupSums(b, rows, key, sel)
    decreases |a|
  {
    if |a| == 0 {
      assert a + b == b;
    } else {
      assert (a + b)[1..] == a[1..] + b;
      GroupSumsAppendKeys(a[1..], b, rows, key, sel);
    }
  }

  lemma {:induction false} GroupCountsAppendKeys<T, K, X>(a: seq<K>, b: seq<K>, rows: seq<T>, key: T -> Option<K>, sel: T -> Option<X>)
    ensures GroupCounts(a + b, rows, key, sel) == GroupCounts(a, rows, key, sel) + GroupCounts(b, rows, key, sel)
    decreases |a|
  {
    if |a| == 0 {
      assert a + b == b;
    } else {
      assert (a + b)[1..] == a[1..] + b;
      GroupCountsAppendKeys(a[1..], b, rows, key, sel);
    }
  }

  /** Appending a row adds its value to its own group's sum only. */
  lemma {:induction false} GroupSumsSnoc<T, K>(ks: seq<K>, rows: seq<T>, r: T, key: T -> Option<K>, sel: T -> Option<real>)
    requires forall i, j :: 0 <= i < j < |ks| ==> ks[i] != ks[j]
    ensures GroupSums(ks, rows + [r], key, sel)
         == GroupSums(ks, rows, key, sel) + (if key(r).Some? && key(r).value in ks then ValueOr0(sel(r)) else 0.0)
    decreases |ks|
  {
    if |ks| > 0 {
      var k0, rest := ks[0], ks[1..];
      GroupSumsSnoc(rest, rows, r, key, sel);
      WhereSnoc(rows, r, key, k0);
      var g := Where(rows, key, k0);
      if key(r) == Some(k0) {
        SumOfSnoc(g, r, sel);
        assert k0 !in rest;
      } else {
        assert Where(rows + [r], key, k0) == g;
        assert key(r).Some? ==> (key(r).value in ks <==> key(r).value in rest);
      }
    }
  }

  lemma {:induction false} GroupCountsSnoc<T, K, X>(ks: seq<K>, rows: seq<T>, r: T, key: T -> Option<K>, sel: T -> Option<X>)
    requires forall i, j :: 0 <= i < j < |ks| ==> ks[i] != ks[j]
    ensures GroupCounts(ks, rows + [r], key, sel)
         == GroupCounts(ks, rows, key, sel) + (if key(r).Some? && key(r).value in ks then Indicator(sel(r)) else 0)
    decreases |ks|
  {
    if |ks| > 0 {
      GroupCountsSnoc(ks[1..], rows, r, key, sel);
      WhereSnoc(rows, r, key, ks[0]);
      assert ks == [ks[0]] + ks[1..];
      var g := Where(rows, key, ks[0]);
      if key(r) == Some(ks[0]) {
        PresentSnoc(g, r, sel);
        assert |Opt(sel(r))| == Indicator(sel(r));
        assert key(r).value !in ks[1..];
      } else {
        assert Where(rows + [r], key, ks[0]) == g;
        assert (key(r).Some? && key(r).value in ks) == (key(r).Some? && key(r).value in ks[1..]);
      }
    }
  }

  /** The group sums of a column add up to the column's sum over all grouped rows. */
  lemma {:induction false} GroupSumsAddUp<T, K>(rows: seq<T>, key: T -> Option<K>, sel: T -> Option<real>)
    ensures GroupSums(Keys(rows, key), rows, key, sel) == SumOf(Keyed(rows, key), sel)
    decreases |rows|
  {
    if |rows| > 0 {
      var init := rows[..|rows|-1];
      var r := rows[|rows|-1];
      assert rows == init + [r];
      GroupSumsAddUp(init, key, sel);
      GroupSumsStep(init, r, key, sel);
    }
  }

  lemma GroupSumsStep<T, K>(init: seq<T>, r: T, key: T -> Option<K>, sel: T -> Option<real>)
    requires GroupSums(Keys(init, key), init, key, sel) == SumOf(Keyed(init, key), sel)
    ensures GroupSums(Keys(init + [r], key), init + [r], key, sel) == SumOf(Keyed(init + [r], key), sel)
  {
    GroupSumsGrow(init, r, key, sel);
    KeyedSnoc(init, r, key);
    if key(r).Some? {
      assert Keyed(init + [r], key) == Keyed(init, key) + [r];
      SumOfSnoc(Keyed(init, key), r, sel);
    } else {
      assert Keyed(init + [r], key) == Keyed(init, key);
    }
  }

  /** Appending a row adds its value to the group sums exactly when it has a key. */
  lemma GroupSumsGrow<T, K>(init: seq<T>, r: T, key: T -> Option<K>, sel: T -> Option<real>)
    ensures GroupSums(Keys(init + [r], key), init + [r], key, sel)
         == GroupSums(Keys(init, key), init, key, sel) + (if key(r).Some? then ValueOr0(sel(r)) else 0.0)
  {
    var ks := Keys(init, key);
    KeysSnoc(init, r, key);
    if key(r).Some? && key(r).value !in ks {
      NewKeySums(init, r, key, sel);
    } else {
      assert Keys(init + [r], key) == ks;
      GroupSumsSnoc(ks, init, r, key, sel);
    }
  }

  /** A row with a new key adds a group holding just its value. */
  lemma NewKeySums<T, K>(init: seq<T>, r: T, key: T -> Option<K>, sel: T -> Option<real>)
    requires key(r).Some? && key(r).value !in Keys(init, key)
    ensures GroupSums(Keys(init + [r], key), init + [r], key, sel) == GroupSums(Keys(init, key), init, key, sel) + ValueOr0(sel(r))
  {
    var ks, k, rows := Keys(init, key), key(r).value, init + [r];
    KeysSnoc(init, r, key);
    assert Keys(rows, key) == ks + [k];
    GroupSumsSnoc(ks, init, r, key, sel);
    GroupSumsAppendKeys(ks, [k], rows, key, sel);
    NewGroupSum(init, r, key, sel);
  }

  /** The group a row with a new key opens sums to that row's value. */
  lemma NewGroupSum<T, K>(rows: seq<T>, r: T, key: T -> Option<K>, sel: T -> Option<real>)
    requires key(r).Some? && key(r).value !in Keys(rows, key)
    ensures GroupSums([key(r).value], rows + [r], key, sel) == ValueOr0(sel(r))
  {
    var k := key(r).value;
    NewGroup(rows, r, key);
    SumOfSnoc([], r, sel);
    assert [k][1..] == [];
    assert SumOf([], sel) == 0.0;
  }

  /** The group a row with a new key opens counts that row's value. */
  lemma NewGroupCount<T, K, X>(rows: seq<T>, r: T, key: T -> Option<K>, sel: T -> Option<X>)
    requires key(r).Some? && key(r).value !in Keys(rows, key)
    ensures GroupCounts([key(r).value], rows + [r], key, sel) == Indicator(sel(r))
  {
    var k := key(r).value;
    NewGroup(rows, r, key);
    PresentSnoc([], r, sel);
    assert [k][1..] == [];
    assert [] + [r] == [r];
  }

  /** Appending a row extends the key list exactly when its key is new. */
  lemma KeysSnoc<T, K>(rows: seq<T>, r: T, key: T -> Option<K>)
    ensures Keys(rows + [r], key)
         == if key(r).Some? && key(r).value !in Keys(rows, key) then Keys(rows, key) + [key(r).value] else Keys(rows, key)
  {
    assert (rows + [r])[..|rows|] == rows;
  }

  /** A row with a new key forms a group of its own. */
  lemma NewGroup<T, K>(rows: seq<T>, r: T, key: T -> Option<K>)
    requires key(r).Some? && key(r).value !in Keys(rows, key)
    ensures Where(rows + [r], key, key(r).value) == [] + [r]
  {
    WhereSnoc(rows, r, key, key(r).value);
    KeysMembers(rows, key, key(r).value);
  }

  /** The group counts of a column add up to the column's count over all grouped rows. */
  lemma {:induction false} GroupCountsAddUp<T, K, X>(rows: seq<T>, key: T -> Option<K>, sel: T -> Option<X>)
    ensures GroupCounts(Keys(rows, key), rows, key, sel) == CountOf(Keyed(rows, key), sel)
    decreases |rows|
  {
    if |rows| > 0 {
      var init := rows[..|rows|-1];
      var r := rows[|rows|-1];
      assert rows == init + [r];
      GroupCountsAddUp(init, key, sel);
      GroupCountsStep(init, r, key, sel);
    }
  }

  lemma GroupCountsStep<T, K, X>(init: seq<T>, r: T, key: T -> Option<K>, sel: T -> Option<X>)
    requires GroupCounts(Keys(init, key), init, key, sel) == CountOf(Keyed(init, key), sel)
    ensures GroupCounts(Keys(init + [r], key), init + [r], key, sel) == CountOf(Keyed(init + [r], key), sel)
  {
    var ks := Keys(init, key);
    var rows := init + [r];
    KeysSnoc(init, r, key);
    KeyedSnoc(init, r, key);
    GroupCountsSnoc(ks, init, r, key, sel);
    if key(r).Some? {
      assert Keyed(rows, key) == Keyed(init, key) + [r];
      PresentSnoc(Keyed(init, key), r, sel);
      assert |Opt(sel(r))| == Indicator(sel(r));
      if key(r).value !in ks {
        var k := key(r).value;
        assert Keys(rows, key) == ks + [k];
        GroupCountsAppendKeys(ks, [k], rows, key, sel);
        NewGroupCount(init, r, key, sel);
        assert GroupCounts(ks, rows, key, sel) == GroupCounts(ks, init, key, sel);
      } else {
        assert Keys(rows, key) == ks;
      }
    } else {
      assert Keys(rows, key) == ks;
      assert Keyed(rows, key) == Keyed(init, key);
      assert GroupCounts(ks, rows, key, sel) == GroupCounts(ks, init, key, sel);
    }
  }

  /** The group sizes add up to the number of grouped rows. */
  lemma GroupSizesAddUp<T, K>(rows: seq<T>, key: T -> Option<K>)
    ensures GroupCounts(Keys(rows, key), rows, key, Itself) == |Keyed(rows, key)|
  {
    GroupCountsAddUp(rows, key, Itself);
    CountRows(Keyed(rows, key));
  }

  /** Only the rows with a present key are grouped: their number is the key column's count. */
  lemma {:induction false} KeyedCount<T, K>(rows: seq<T>, key: T -> Option<K>)
    ensures |Keyed(rows, key)| == CountOf(rows, key)
    decreases |rows|
  {
    if |rows| > 0 {
      KeyedCount(rows[..|rows|-1], key);
    }
  }

  // ---------------------------------------------------------------------
  // Tables keyed by group: `value_counts`, and the totals of their columns.

  /** `value_counts()`: every present value with the number of rows holding it. */
  function ValueCounts<T, K(==)>(rows: seq<T>, key: T -> Option<K>): map<K, nat>
  {
    map k | k in KeySet(rows, key) :: |Where(rows, key, k)|
  }

  /** A value is counted exactly when some row holds it, and then with the
      number of rows holding it. */
  lemma ValueCountsEntries<T, K>(rows: seq<T>, key: T -> Option<K>, k: K)
    ensures k in ValueCounts(rows, key) <==> exists i :: 0 <= i < |rows| && key(rows[i]) == Some(k)
    ensures k in ValueCounts(rows, key) ==> ValueCounts(rows, key)[k] == CountOf(Where(rows, key, k), Itself) > 0
  {
    KeySetMembers(rows, key, k);
    KeysMembers(rows, key, k);
    CountRows(Where(rows, key, k));
  }

  /** The total of a count column over the listed keys (absent keys count 0). */
  function CountTotal<K>(ks: seq<K>, m: map<K, nat>): nat
  {
    if |ks| == 0 then 0 else (if ks[0] in m then m[ks[0]] else 0) + CountTotal(ks[1..], m)
  }

  /** The total of a real column over the listed keys (absent keys count 0). */
  function RealTotal<K>(ks: seq<K>, m: map<K, real>): real
  {
    if |ks| == 0 then 0.0 else (if ks[0] in m then m[ks[0]] else 0.0) + RealTotal(ks[1..], m)
  }

  /** A table whose entries are the groups' counts totals to the groups' counts. */
  lemma {:induction false} CountTotalGroups<T, K, X>(ks: seq<K>, m: map<K, nat>, rows: seq<T>, key: T -> Option<K>, sel: T -> Option<X>)
    requires forall k :: k in ks ==> k in m && m[k] == CountOf(Where(rows, key, k), sel)
    ensures CountTotal(ks, m) == GroupCounts(ks, rows, key, sel)
    decreases |ks|
  {
    if |ks| > 0 {
      assert ks[0] in ks;
      CountTotalGroups(ks[1..], m, rows, key, sel);
    }
  }

  /** A table whose entries are the groups' sums totals to the groups' sums. */
  lemma {:induction false} RealTotalGroups<T, K>(ks: seq<K>, m: map<K, real>, rows: seq<T>, key: T -> Option<K>, sel: T -> Option<real>)
    requires forall k :: k in ks ==> k in m && m[k] == SumOf(Where(rows, key, k), sel)
    ensures RealTotal(ks, m) == GroupSums(ks, rows, key, sel)
    decreases |ks|
  {
    if |ks| > 0 {
      assert ks[0] in ks;
      RealTotalGroups(ks[1..], m, rows, key, sel);
    }
  }

  /** The value counts add up to the number of present values. */
  lemma ValueCountsAddUp<T, K>(rows: seq<T>, key: T -> Option<K>)
    ensures CountTotal(Keys(rows, key), ValueCounts(rows, key)) == CountOf(rows, key)
  {
    var m := ValueCounts(rows, key);
    forall k | k in Keys(rows, key)
      ensures k in m && m[k] == CountOf(Where(rows, key, k), Itself)
    {
      CountRows(Where(rows, key, k));
    }
    CountTotalGroups(Keys(rows, key), m, rows, key, Itself);
    GroupSizesAddUp(rows, key);
    KeyedCount(rows, key);
  }

  // ---------------------------------------------------------------------
  // `groupby(key).agg(...)`: one aggregate per group.

  /** The table of a `groupby`: one entry per present key, holding the
      aggregate of that key's rows. */
  function GroupBy<T, K(==), V>(rows: seq<T>, key: T -> Option<K>, agg: seq<T> -> V): (m: map<K, V>)
    ensures m.Keys == KeySet(rows, key)
  {
    map k | k in KeySet(rows, key) :: agg(Where(rows, key, k))
  }

  /** One count column of a table. */
  function CountColumn<K, V>(m: map<K, V>, f: V -> nat): map<K, nat>
  {
    map k | k in m :: f(m[k])
  }

  /** One real column of a table. */
  function RealColumn<K, V>(m: map<K, V>, f: V -> real): map<K, real>
  {
    map k | k in m :: f(m[k])
  }

  /** A table has an entry for a key exactly when some row carries the key. */
  lemma GroupByEntries<T, K, V>(rows: seq<T>, key: T -> Option<K>, agg: seq<T> -> V, k: K)
    ensures k in GroupBy(rows, key, agg) <==> exists i :: 0 <= i < |rows| && key(rows[i]) == Some(k)
  {
    KeySetMembers(rows, key, k);
  }

  /** A count column that counts a column's present values totals, over the
      table, to that column's count over the grouped rows. */
  lemma GroupByCountsAddUp<T, K, V, X>(rows: seq<T>, key: T -> Option<K>, agg: seq<T> -> V, f: V -> nat, sel: T -> Option<X>)
    requires forall g :: f(agg(g)) == CountOf(g, sel)
    ensures CountTotal(Keys(rows, key), CountColumn(GroupBy(rows, key, agg), f)) == CountOf(Keyed(rows, key), sel)
  {
    var m := CountColumn(GroupBy(rows, key, agg), f);
    forall k | k in Keys(rows, key)
      ensures k in m && m[k] == CountOf(Where(rows, key, k), sel)
    {
      assert k in KeySet(rows, key);
    }
    CountTotalGroups(Keys(rows, key), m, rows, key, sel);
    GroupCountsAddUp(rows, key, sel);
  }

  /** A real column that sums a column totals, over the table, to that
      column's sum over the grouped rows. */
  lemma GroupBySumsAddUp<T, K, V>(rows: seq<T>, key: T -> Option<K>, agg: seq<T> -> V, f: V -> real, sel: T -> Option<real>)
    requires forall g :: f(agg(g)) == SumOf(g, sel)
    ensures RealTotal(Keys(rows, key), RealColumn(GroupBy(rows, key, agg), f)) == SumOf(Keyed(rows, key), sel)
  {
    var m := RealColumn(GroupBy(rows, key, agg), f);
    forall k | k in Keys(rows, key)
      ensures k in m && m[k] == SumOf(Where(rows, key, k), sel)
    {
      assert k in KeySet(rows, key);
    }
    RealTotalGroups(Keys(rows, key), m, rows, key, sel);
    GroupSumsAddUp(rows, key, sel);
  }

  // ---------------------------------------------------------------------
  // Two-column group keys.

  /** The key of a two-column `groupby`. */
  function PairKey<T, A, B>(f: T -> Option<A>, g: T -> Option<B>): T -> Option<(A, B)>
  {
    t => Both(f(t), g(t))
  }

  /** A two-column group is the second column's group within the first column's group. */
  lemma {:induction false} WhereNested<T, A, B>(rows: seq<T>, f: T -> Option<A>, g: T -> Option<B>, a: A, b: B)
    ensures Where(rows, PairKey(f, g), (a, b)) == Where(Where(rows, f, a), g, b)
    decreases |rows|
  {
    if |rows| > 0 {
      var init, r := rows[..|rows|-1], rows[|rows|-1];
      WhereNested(init, f, g, a, b);
      assert rows == init + [r];
      var p := PairKey(f, g);
      WhereSnoc(init, r, f, a);
      WhereSnoc(init, r, p, (a, b));
      assert p(r) == Both(f(r), g(r));
      var inner := Where(init, f, a);
      if f(r) == Some(a) {
        assert Where(rows, f, a) == inner + [r];
        WhereSnoc(inner, r, g, b);
        assert p(r) == Some((a, b)) <==> g(r) == Some(b);
      } else {
        assert Where(rows, f, a) == inner;
        assert p(r) != Some((a, b));
      }
    }
  }

  /** A table has an entry exactly for the keys some row carries. */
  lemma GroupsOf<T, K, V>(rows: seq<T>, key: T -> Option<K>, agg: seq<T> -> V)
    ensures forall k :: k in GroupBy(rows, key, agg) <==> exists i :: 0 <= i < |rows| && key(rows[i]) == Some(k)
  {
    forall k
      ensures k in GroupBy(rows, key, agg) <==> exists i :: 0 <= i < |rows| && key(rows[i]) == Some(k)
    {
      GroupByEntries(rows, key, agg, k);
    }
  }

  /** A two-column table has an entry exactly for the pairs some row carries,
      and each entry aggregates the second column's group within the first's. */
  lemma PairGroups<T, A, B, V>(rows: seq<T>, f: T -> Option<A>, g: T -> Option<B>, agg: seq<T> -> V)
    ensures var m := GroupBy(rows, PairKey(f, g), agg);
      forall a, b :: (a, b) in m <==> exists i :: 0 <= i < |rows| && f(rows[i]) == Some(a) && g(rows[i]) == Some(b)
    ensures var m := GroupBy(rows, PairKey(f, g), agg);
      forall a, b :: (a, b) in m ==> m[(a, b)] == agg(Where(Where(rows, f, a), g, b))
  {
    var p := PairKey(f, g);
    forall a, b
      ensures (a, b) in GroupBy(rows, p, agg) <==> exists i :: 0 <= i < |rows| && f(rows[i]) == Some(a) && g(rows[i]) == Some(b)
      ensures Where(rows, p, (a, b)) == Where(Where(rows, f, a), g, b)
    {
      GroupByEntries(rows, p, agg, (a, b));
      WhereNested(rows, f, g, a, b);
      forall i | 0 <= i < |rows|
        ensures p(rows[i]) == Some((a, b)) <==> f(rows[i]) == Some(a) && g(rows[i]) == Some(b)
      {
        assert p(rows[i]) == Both(f(rows[i]), g(rows[i]));
      }
    }
  }

  /** The two-column keys `(a, b)` for the listed second-column values `bs`. */
  function Prefixed<A, B>(a: A, bs: seq<B>): (ks: seq<(A, B)>)
    ensures |ks| == |bs| && forall i :: 0 <= i < |bs| ==> ks[i] == (a, bs[i])
  {
    if |bs| == 0 then [] else [(a, bs[0])] + Prefixed(a, bs[1..])
  }

  /** Over the keys of one first-column value, the two-column groups' counts
      are the counts of the second-column groups within that value's group. */
  lemma {:induction false} NestedCounts<T, A, B, X>(bs: seq<B>, rows: seq<T>, f: T -> Option<A>, g: T -> Option<B>, a: A, sel: T -> Option<X>)
    ensures GroupCounts(Prefixed(a, bs), rows, PairKey(f, g), sel) == GroupCounts(bs, Where(rows, f, a), g, sel)
    decreases |bs|
  {
    if |bs| > 0 {
      NestedCounts(bs[1..], rows, f, g, a, sel);
      WhereNested(rows, f, g, a, bs[0]);
      assert Prefixed(a, bs)[1..] == Prefixed(a, bs[1..]);
    }
  }

  /** The same for column sums. */
  lemma {:induction false} NestedSums<T, A, B>(bs: seq<B>, rows: seq<T>, f: T -> Option<A>, g: T -> Option<B>, a: A, sel: T -> Option<real>)
    ensures GroupSums(Prefixed(a, bs), rows, PairKey(f, g), sel) == GroupSums(bs, Where(rows, f, a), g, sel)
    decreases |bs|
  {
    if |bs| > 0 {
      NestedSums(bs[1..], rows, f, g, a, sel);
      WhereNested(rows, f, g, a, bs[0]);
      assert Prefixed(a, bs)[1..] == Prefixed(a, bs[1..]);
    }
  }

  /** A second-column value within the group of `a` makes `(a, b)` a key of the two-column table. */
  lemma NestedKey<T, A, B>(rows: seq<T>, f: T -> Option<A>, g: T -> Option<B>, a: A, b: B)
    requires b in Keys(Where(rows, f, a), g)
    ensures (a, b) in KeySet(rows, PairKey(f, g))
  {
    var inner := Where(rows, f, a);
    KeysMembers(inner, g, b);
    var r := Where(inner, g, b)[0];
    WhereMembers(inner, g, b, r);
    WhereMembers(rows, f, a, r);
    var i :| 0 <= i < |rows| && rows[i] == r;
    assert PairKey(f, g)(rows[i]) == Some((a, b));
    KeySetMembers(rows, PairKey(f, g), (a, b));
  }

  /** Summed over the second-column values within one first-column value, a
      two-column table's count column totals that value's count. */
  lemma NestedCountsAddUp<T, A, B, V, X>(rows: seq<T>, f: T -> Option<A>, g: T -> Option<B>, agg: seq<T> -> V, fc: V -> nat, sel: T -> Option<X>, a: A)
    requires forall grp :: fc(agg(grp)) == CountOf(grp, sel)
    ensures var inner := Where(rows, f, a);
      CountTotal(Prefixed(a, Keys(inner, g)), CountColumn(GroupBy(rows, PairKey(f, g), agg), fc)) == CountOf(Keyed(inner, g), sel)
  {
    var inner := Where(rows, f, a);
    var ks := Prefixed(a, Keys(inner, g));
    var m := CountColumn(GroupBy(rows, PairKey(f, g), agg), fc);
    forall k | k in ks
      ensures k in m && m[k] == CountOf(Where(rows, PairKey(f, g), k), sel)
    {
      var i :| 0 <= i < |ks| && ks[i] == k;
      NestedKey(rows, f, g, a, Keys(inner, g)[i]);
    }
    CountTotalGroups(ks, m, rows, PairKey(f, g), sel);
    NestedCounts(Keys(inner, g), rows, f, g, a, sel);
    GroupCountsAddUp(inner, g, sel);
  }

  /** Summed over the second-column values within one first-column value, a
      two-column table's sum column totals that value's sum. */
  lemma NestedSumsAddUp<T, A, B, V>(rows: seq<T>, f: T -> Option<A>, g: T -> Option<B>, agg: seq<T> -> V, fs: V -> real, sel: T -> Option<real>, a: A)
    requires forall grp :: fs(agg(grp)) == SumOf(grp, sel)
    ensures var inner := Where(rows, f, a);
      RealTotal(Prefixed(a, Keys(inner, g)), RealColumn(GroupBy(rows, PairKey(f, g), agg), fs)) == SumOf(Keyed(inner, g), sel)
  {
    var inner := Where(rows, f, a);
    var ks := Prefixed(a, Keys(inner, g));
    var m := RealColumn(GroupBy(rows, PairKey(f, g), agg), fs);
    forall k | k in ks
      ensures k in m && m[k] == SumOf(Where(rows, PairKey(f, g), k), sel)
    {
      var i :| 0 <= i < |ks| && ks[i] == k;
      NestedKey(rows, f, g, a, Keys(inner, g)[i]);
    }
    RealTotalGroups(ks, m, rows, PairKey(f, g), sel);
    NestedSums(Keys(inner, g), rows, f, g, a, sel);
    GroupSumsAddUp(inner, g, sel);
  }
}
