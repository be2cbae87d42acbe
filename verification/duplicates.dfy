/** `drop_duplicates(subset=[key], keep='first')`: the rows whose key has not
    appeared before, in input order. Keys are compared by equality, so two
    NaN keys count as duplicates of each other, as pandas treats them. */
module Duplicates {

  /** Row `i` is the first row carrying its key. */
  predicate IsFirst<T, K(==)>(rows: seq<T>, key: T -> K, i: int)
    requires 0 <= i < |rows|
  {
    forall j :: 0 <= j < i ==> key(rows[j]) != key(rows[i])
  }

  /** The set of keys the rows carry. */
  function KeysOf<T, K>(rows: seq<T>, key: T -> K): set<K>
  {
    set i | 0 <= i < |rows| :: key(rows[i])
  }

  /** The rows that are the first with their key, in input order. */
  function DropDuplicates<T, K(==)>(rows: seq<T>, key: T -> K): (out: seq<T>)
    ensures |out| <= |rows|
  {
    if |rows| == 0 then []
    else DropDuplicates(rows[..|rows|-1], key) + (if IsFirst(rows, key, |rows|-1) then [rows[|rows|-1]] else [])
  }

  /** The positions `DropDuplicates` keeps: exactly the first occurrences, ascending. */
  function FirstPositions<T, K(==)>(rows: seq<T>, key: T -> K): (ps: seq<int>)
    ensures forall k :: 0 <= k < |ps| ==> 0 <= ps[k] < |rows| && IsFirst(rows, key, ps[k])
    ensures forall k, l :: 0 <= k < l < |ps| ==> ps[k] < ps[l]
    ensures forall i :: 0 <= i < |rows| && IsFirst(rows, key, i) ==> i in ps
  {
    if |rows| == 0 then []
    else
      var init := rows[..|rows|-1];
      var ps := FirstPositions(init, key);
      assert forall i :: 0 <= i < |init| ==> (IsFirst(init, key, i) <==> IsFirst(rows, key, i));
      if IsFirst(rows, key, |rows|-1) then ps + [|rows|-1] else ps
  }

  lemma DropSnoc<T, K>(rows: seq<T>, r: T, key: T -> K)
    ensures DropDuplicates(rows + [r], key)
         == DropDuplicates(rows, key) + (if IsFirst(rows + [r], key, |rows|) then [r] else [])
  {
    assert (rows + [r])[..|rows|] == rows;
  }

  /** The output is the subsequence of the input at the first occurrences. */
  lemma {:induction false} KeepsFirstPositions<T, K>(rows: seq<T>, key: T -> K)
    ensures var out, ps := DropDuplicates(rows, key), FirstPositions(rows, key);
      |out| == |ps| && forall k :: 0 <= k < |ps| ==> out[k] == rows[ps[k]]
    decreases |rows|
  {
    if |rows| > 0 {
      var init := rows[..|rows|-1];
      KeepsFirstPositions(init, key);
      assert rows == init + [rows[|rows|-1]];
      DropSnoc(init, rows[|rows|-1], key);
      var ps := FirstPositions(init, key);
      forall k | 0 <= k < |ps|
        ensures rows[ps[k]] == init[ps[k]]
      {
      }
    }
  }

  /** No key appears twice in the output. */
  lemma DistinctKeys<T, K>(rows: seq<T>, key: T -> K)
    ensures var out := DropDuplicates(rows, key);
      forall k, l :: 0 <= k < l < |out| ==> key(out[k]) != key(out[l])
  {
    KeepsFirstPositions(rows, key);
  }

  lemma KeysSnoc<T, K>(rows: seq<T>, r: T, key: T -> K)
    ensures KeysOf(rows + [r], key) == KeysOf(rows, key) + {key(r)}
  {
    var s := rows + [r];
    forall x | x in KeysOf(s, key)
      ensures x in KeysOf(rows, key) + {key(r)}
    {
      var i :| 0 <= i < |s| && key(s[i]) == x;
      if i < |rows| { assert s[i] == rows[i]; }
    }
    forall x | x in KeysOf(rows, key)
      ensures x in KeysOf(s, key)
    {
      var i :| 0 <= i < |rows| && key(rows[i]) == x;
      assert s[i] == rows[i];
    }
    assert key(s[|rows|]) == key(r);
  }

  /** The last row is a first occurrence exactly when its key is new. */
  lemma FirstIsNew<T, K>(rows: seq<T>, r: T, key: T -> K)
    ensures IsFirst(rows + [r], key, |rows|) <==> key(r) !in KeysOf(rows, key)
  {
    var s := rows + [r];
    if key(r) in KeysOf(rows, key) {
      var i :| 0 <= i < |rows| && key(rows[i]) == key(r);
      assert s[i] == rows[i];
    }
  }

  /** Every key survives, and the output has one row per distinct key: the
      rows removed are the input length minus the number of distinct keys. */
  lemma {:induction false} OneRowPerKey<T, K>(rows: seq<T>, key: T -> K)
    ensures KeysOf(DropDuplicates(rows, key), key) == KeysOf(rows, key)
    ensures |DropDuplicates(rows, key)| == |KeysOf(rows, key)|
    decreases |rows|
  {
    if |rows| == 0 {
      assert KeysOf(rows, key) == {};
    } else {
      var init, r := rows[..|rows|-1], rows[|rows|-1];
      var out := DropDuplicates(init, key);
      OneRowPerKey(init, key);
      assert rows == init + [r];
      DropSnoc(init, r, key);
      KeysSnoc(init, r, key);
      FirstIsNew(init, r, key);
      if IsFirst(rows, key, |init|) {
        KeysSnoc(out, r, key);
      } else {
        assert key(r) in KeysOf(init, key);
        assert DropDuplicates(rows, key) == out;
        assert KeysOf(rows, key) == KeysOf(init, key);
      }
    }
  }

  /** Input whose keys are already distinct passes through unchanged. */
  lemma {:induction false} DistinctUnchanged<T, K>(rows: seq<T>, key: T -> K)
    requires forall k, l :: 0 <= k < l < |rows| ==> key(rows[k]) != key(rows[l])
    ensures DropDuplicates(rows, key) == rows
    decreases |rows|
  {
    if |rows| > 0 {
      var init := rows[..|rows|-1];
      DistinctUnchanged(init, key);
    }
  }

  /** Dropping duplicates twice is dropping them once. */
  lemma Idempotent<T, K>(rows: seq<T>, key: T -> K)
    ensures DropDuplicates(DropDuplicates(rows, key), key) == DropDuplicates(rows, key)
  {
    DistinctKeys(rows, key);
    DistinctUnchanged(DropDuplicates(rows, key), key);
  }

  /** Nothing is removed exactly when the keys are already distinct. */
  lemma {:induction false} NothingRemoved<T, K>(rows: seq<T>, key: T -> K)
    ensures |DropDuplicates(rows, key)| == |rows| <==> forall k, l :: 0 <= k < l < |rows| ==> key(rows[k]) != key(rows[l])
    decreases |rows|
  {
    if |rows| > 0 {
      var init, r := rows[..|rows|-1], rows[|rows|-1];
      NothingRemoved(init, key);
      assert rows == init + [r];
      if |DropDuplicates(rows, key)| == |rows| {
        assert IsFirst(rows, key, |init|);
        forall k, l | 0 <= k < l < |rows|
          ensures key(rows[k]) != key(rows[l])
        {
          if l < |init| {
            assert rows[k] == init[k] && rows[l] == init[l];
          }
        }
      } else {
        DistinctKeys(rows, key);
        if forall k, l :: 0 <= k < l < |rows| ==> key(rows[k]) != key(rows[l]) {
          DistinctUnchanged(rows, key);
        }
      }
    }
  }
}
