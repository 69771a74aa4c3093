/** Keys in increasing order, and the rows under them. */
module Ordering {
  import opened Bytes

  ghost predicate IsLeast(s: set<nat>, m: nat) {
    m in s && forall k :: k in s ==> m <= k
  }

  lemma {:induction false} LeastExists(s: set<nat>)
    requires s != {}
    ensures exists m :: IsLeast(s, m)
  {
    var x :| x in s;
    var others := s - {x};
    if others == {} {
      assert s == {x};
      assert IsLeast(s, x);
    } else {
      LeastExists(others);
      var y :| IsLeast(others, y);
      var m := if x <= y then x else y;
      forall k | k in s ensures m <= k {
        assert k == x || k in others;
      }
      assert IsLeast(s, m);
    }
  }

  function Min(s: set<nat>): (m: nat)
    requires s != {}
    ensures m in s && forall k :: k in s ==> m <= k
  {
    LeastExists(s);
    assert exists m :: m in s && forall k :: k in s ==> m <= k by {
      var m :| IsLeast(s, m);
    }
    var m :| m in s && forall k :: k in s ==> m <= k;
    m
  }

  /** The order tables are read in. */
  function SortedKeys(s: set<nat>): (keys: seq<nat>)
    ensures forall k :: k in keys <==> k in s
    ensures Increasing(keys)
    decreases |s|
  {
    if s == {} then [] else [Min(s)] + SortedKeys(s - {Min(s)})
  }

  predicate Increasing(keys: seq<nat>) {
    forall i, j :: 0 <= i < j < |keys| ==> keys[i] < keys[j]
  }

  /** There is only one way to put keys in order. */
  lemma {:induction false} OrderIsUnique(a: seq<nat>, b: seq<nat>)
    requires Increasing(a) && Increasing(b)
    requires forall k :: k in a <==> k in b
    ensures a == b
  {
    if b != [] {
      assert b[0] in b;
    }
    if a != [] {
      assert a[0] in b && b[0] in a;
      assert a[0] == b[0];
      forall k ensures k in a[1..] <==> k in b[1..] {
        assert k in a[1..] ==> k in a && k != a[0];
        assert k in b[1..] ==> k in b && k != b[0];
      }
      OrderIsUnique(a[1..], b[1..]);
    }
  }

  lemma KeyByKey(keys: seq<nat>, unread: set<nat>)
    requires unread != {}
    ensures keys + SortedKeys(unread) == keys + [Min(unread)] + SortedKeys(unread - {Min(unread)})
  {
  }

  // Rows of a table, in the order of some of its keys.

  function RowsAt(table: map<nat, Line>, keys: seq<nat>): (rows: seq<Line>)
    requires forall k :: k in keys ==> k in table
    ensures |rows| == |keys|
    ensures forall i :: 0 <= i < |keys| ==> rows[i] == table[keys[i]]
  {
    seq(|keys|, i requires 0 <= i < |keys| => table[keys[i]])
  }

  lemma OneMoreRow(table: map<nat, Line>, keys: seq<nat>, k: nat)
    requires k in table && forall j :: j in keys ==> j in table
    ensures Unlines(RowsAt(table, keys + [k])) == Unlines(RowsAt(table, keys)) + table[k] + [NEWLINE]
  {
    UnlinesConcat(RowsAt(table, keys), [table[k]]);
    assert RowsAt(table, keys + [k]) == RowsAt(table, keys) + [table[k]];
    assert [table[k]][1..] == [];
    Associative(Unlines(RowsAt(table, keys)), table[k], [NEWLINE]);
  }
}
