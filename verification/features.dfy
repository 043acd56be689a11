/**
 Reconciliation of the predictor's declared feature names with the columns
 of the scored table.
 */
module Features {
  import opened Tables

  /** a can be obtained from b by deleting elements, so a keeps b's relative order. */
  predicate IsSubsequence<T(==)>(a: seq<T>, b: seq<T>)
    decreases |b|
  {
    && |a| <= |b|
    && (|a| == 0
        || (a[0] == b[0] && IsSubsequence(a[1..], b[1..]))
        || IsSubsequence(a, b[1..]))
  }

  /**
   The declared features that are columns of the table, in the declared order
   (not the table's): the list comprehension over `expected` filtered by column membership.
   */
  function AvailableFeatures(expected: seq<string>, columns: seq<string>): (r: seq<string>)
    ensures forall f :: f in r <==> f in expected && f in columns
    ensures IsSubsequence(r, expected)
    ensures |r| == |expected| <==> forall k :: 0 <= k < |expected| ==> expected[k] in columns
    decreases |expected|
  {
    if |expected| == 0 then []
    else
      var rest := AvailableFeatures(expected[1..], columns);
      assert forall k :: 1 <= k < |expected| ==> expected[k] == expected[1..][k - 1];
      if expected[0] in columns then
        assert ([expected[0]] + rest)[1..] == rest;
        [expected[0]] + rest
      else
        rest
  }

  /**
   The warning's set: declared features minus the available ones, as sets.
   It is exactly the declared features that are not columns of the table.
   */
  function MissingFeatures(expected: seq<string>, columns: seq<string>): (m: set<string>)
    ensures m == set f | f in expected && f !in columns
  {
    (set f | f in expected) - (set f | f in AvailableFeatures(expected, columns))
  }

  /**
   The shortfall warning (`len(available) < len(expected)`) fires exactly when
   some declared feature is not a column, i.e. when the missing set is non-empty.
   */
  lemma ShortfallIffMissing(expected: seq<string>, columns: seq<string>)
    ensures var available := AvailableFeatures(expected, columns);
      |available| < |expected| <==> MissingFeatures(expected, columns) != {}
  {
    var available := AvailableFeatures(expected, columns);
    if |available| < |expected| {
      var k :| 0 <= k < |expected| && expected[k] !in columns;
      assert expected[k] in MissingFeatures(expected, columns);
    }
  }

  /**
   A declared feature appears in the result exactly as often as in the declared
   list when it is a column, and not at all otherwise: the filter neither merges
   repeated names nor drops any.
   */
  lemma {:induction false} AvailableCount(expected: seq<string>, columns: seq<string>, f: string)
    ensures multiset(AvailableFeatures(expected, columns))[f]
         == if f in columns then multiset(expected)[f] else 0
    decreases |expected|
  {
    if |expected| > 0 {
      AvailableCount(expected[1..], columns, f);
      assert expected == [expected[0]] + expected[1..];
      assert multiset(expected) == multiset([expected[0]]) + multiset(expected[1..]);
    }
  }

  /**
   Only the set of table columns matters: two tables whose columns are the same
   names in different orders give the same available features, in the same order.
   */
  lemma {:induction false} AvailableIgnoresColumnOrder(expected: seq<string>, c1: seq<string>, c2: seq<string>)
    requires forall f :: f in c1 <==> f in c2
    ensures AvailableFeatures(expected, c1) == AvailableFeatures(expected, c2)
    decreases |expected|
  {
    if |expected| > 0 {
      AvailableIgnoresColumnOrder(expected[1..], c1, c2);
    }
  }

  /** Declared features without repetition give available features without repetition. */
  lemma {:induction false} AvailableDistinct(expected: seq<string>, columns: seq<string>)
    requires Distinct(expected)
    ensures Distinct(AvailableFeatures(expected, columns))
    decreases |expected|
  {
    if |expected| > 0 {
      AvailableDistinct(expected[1..], columns);
      var rest := AvailableFeatures(expected[1..], columns);
      assert Distinct(rest);
      assert expected[0] !in expected[1..];
      assert expected[0] !in rest;
      var r := AvailableFeatures(expected, columns);
      if expected[0] in columns {
        assert r == [expected[0]] + rest;
        forall i, j | 0 <= i < j < |r|
          ensures r[i] != r[j]
        {
          assert r[j] == rest[j - 1];
          if i > 0 {
            assert r[i] == rest[i - 1];
          }
        }
      } else {
        assert r == rest;
      }
    }
  }
}
