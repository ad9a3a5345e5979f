/**
 * `DataFrame.nlargest(n, 'Points')` with its default `keep='first'`: the n rows
 * with the most points, best first, and on equal points the row that comes
 * earlier in the frame first. Modelled as taking the first best row out, n times.
 */
module TopN {
  import opened Frame

  /** `k` is the first position holding the most points. */
  predicate IsFirstMax(rows: seq<Row>, k: nat)
  {
    k < |rows|
    && (forall j :: 0 <= j < |rows| ==> rows[j].points <= rows[k].points)
    && (forall j :: 0 <= j < k ==> rows[j].points < rows[k].points)
  }

  /** Every non-empty sequence of rows has a first maximum. */
  lemma {:induction false} FirstMaxExists(rows: seq<Row>)
    requires rows != []
    ensures exists k: nat :: IsFirstMax(rows, k)
  {
    if |rows| > 1 {
      FirstMaxExists(rows[1..]);
      var k: nat :| IsFirstMax(rows[1..], k);
      if rows[0].points >= rows[k + 1].points {
        assert IsFirstMax(rows, 0);
      } else {
        assert IsFirstMax(rows, k + 1);
      }
    } else {
      assert IsFirstMax(rows, 0);
    }
  }

  /** A sequence of rows has at most one first maximum. */
  lemma FirstMaxUnique(rows: seq<Row>)
    ensures forall k1: nat, k2: nat :: IsFirstMax(rows, k1) && IsFirstMax(rows, k2) ==> k1 == k2
  {
    forall k1: nat, k2: nat | IsFirstMax(rows, k1) && IsFirstMax(rows, k2)
      ensures k1 == k2
    {
      // Each holds at least the other's points, and an earlier one would hold strictly fewer.
      assert rows[k1].points == rows[k2].points;
    }
  }

  /** Position of the first row with the most points (there is exactly one). */
  function FirstMax(rows: seq<Row>): (k: nat)
    requires rows != []
    ensures k < |rows|
  {
    FirstMaxExists(rows);
    FirstMaxUnique(rows);
    var k: nat :| IsFirstMax(rows, k);
    k
  }

  lemma FirstMaxIsFirstBest(rows: seq<Row>)
    requires rows != []
    ensures IsFirstMax(rows, FirstMax(rows))
  {
  }

  /** `rows.nlargest(n, 'Points')`: n rows, or all of them when there are fewer. */
  function NLargest(rows: seq<Row>, n: nat): (top: seq<Row>)
    decreases n
  {
    if n == 0 || rows == [] then []
    else
      var k := FirstMax(rows);
      [rows[k]] + NLargest(Without(rows, k), n - 1)
  }

  /** The rows `NLargest(rows, n)` leaves behind, in frame order. */
  function Leftover(rows: seq<Row>, n: nat): (rest: seq<Row>)
    decreases n
  {
    if n == 0 || rows == [] then rows
    else Leftover(Without(rows, FirstMax(rows)), n - 1)
  }

  /** One round of `NLargest`/`Leftover`: take out the first best row. */
  lemma Step(rows: seq<Row>, n: nat)
    requires n > 0 && rows != []
    ensures NLargest(rows, n) == [rows[FirstMax(rows)]] + NLargest(Without(rows, FirstMax(rows)), n - 1)
    ensures Leftover(rows, n) == Leftover(Without(rows, FirstMax(rows)), n - 1)
  {
  }

  lemma {:induction false} Sizes(rows: seq<Row>, n: nat)
    ensures |NLargest(rows, n)| == Min(n, |rows|)
    ensures |Leftover(rows, n)| == |rows| - Min(n, |rows|)
    decreases n
  {
    if n == 0 || rows == [] {
      assert NLargest(rows, n) == [] && Leftover(rows, n) == rows;
    } else {
      Step(rows, n);
      Sizes(Without(rows, FirstMax(rows)), n - 1);
    }
  }

  /** Every pick and every left-over row is an input row, and every input row is one of the two. */
  lemma {:induction false} Members(rows: seq<Row>, n: nat)
    ensures Within(NLargest(rows, n), rows) && Within(Leftover(rows, n), rows)
    ensures forall x :: x in rows ==> x in NLargest(rows, n) || x in Leftover(rows, n)
    decreases n
  {
    if n == 0 || rows == [] {
      assert NLargest(rows, n) == [] && Leftover(rows, n) == rows;
    } else {
      var k := FirstMax(rows);
      var w := Without(rows, k);
      Step(rows, n);
      Members(w, n - 1);
      WithoutMembers(rows, k);
    }
  }

  /** Picking from distinct rows picks distinct rows and never one that is left over. */
  lemma {:induction false} PartitionDistinct(rows: seq<Row>, n: nat)
    requires Distinct(rows)
    ensures Distinct(NLargest(rows, n) + Leftover(rows, n))
    ensures Distinct(NLargest(rows, n)) && Distinct(Leftover(rows, n))
    decreases n
  {
    if n != 0 && rows != [] {
      var k := FirstMax(rows);
      var w := Without(rows, k);
      WithoutMembers(rows, k);
      PartitionDistinct(w, n - 1);
      Members(w, n - 1);
      assert [rows[k]] + (NLargest(w, n - 1) + Leftover(w, n - 1)) == NLargest(rows, n) + Leftover(rows, n);
      DistinctAppend([rows[k]], NLargest(w, n - 1) + Leftover(w, n - 1));
    }
    DistinctParts(NLargest(rows, n), Leftover(rows, n));
  }

  /** The picks come best first. */
  lemma {:induction false} Descending(rows: seq<Row>, n: nat)
    ensures forall i, j :: 0 <= i < j < |NLargest(rows, n)| ==> NLargest(rows, n)[i].points >= NLargest(rows, n)[j].points
    decreases n
  {
    if n != 0 && rows != [] {
      var k := FirstMax(rows);
      var w := Without(rows, k);
      Descending(w, n - 1);
      Members(w, n - 1);
      WithoutMembers(rows, k);
      var top := NLargest(rows, n);
      forall i, j | 0 <= i < j < |top| ensures top[i].points >= top[j].points {
        if i == 0 {
          assert top[j] in NLargest(w, n - 1);
          assert top[j] in rows;
        }
      }
    }
  }

  /** Position i of the input is position i' of the input without row k. */
  lemma WithoutAt(rows: seq<Row>, k: nat, i: nat)
    requires k < |rows| && i < |rows| && i != k
    ensures var i' := if i < k then i else i - 1;
      i' < |Without(rows, k)| && Without(rows, k)[i'] == rows[i]
  {
  }

  /**
   * Top-n maximality with keep-first tie-breaking: a picked row has more points
   * than any row left out, or as many and an earlier place in the input.
   */
  lemma {:induction false} Beats(rows: seq<Row>, n: nat)
    requires Distinct(rows)
    ensures forall i, j :: 0 <= i < |rows| && 0 <= j < |rows| && rows[i] in NLargest(rows, n) && rows[j] !in NLargest(rows, n) ==>
              rows[i].points > rows[j].points || (rows[i].points == rows[j].points && i < j)
    decreases n
  {
    if n != 0 && rows != [] {
      var k := FirstMax(rows);
      var w := Without(rows, k);
      var top := NLargest(rows, n);
      assert top == [rows[k]] + NLargest(w, n - 1) by {
        Step(rows, n);
      }
      assert Distinct(w) && rows[k] !in w by {
        WithoutMembers(rows, k);
      }
      assert IsFirstMax(rows, k) by {
        FirstMaxIsFirstBest(rows);
      }
      Beats(w, n - 1);
      forall i, j | 0 <= i < |rows| && 0 <= j < |rows| && rows[i] in top && rows[j] !in top
        ensures rows[i].points > rows[j].points || (rows[i].points == rows[j].points && i < j)
      {
        assert j != k;
        if i != k {
          var i' := if i < k then i else i - 1;
          var j' := if j < k then j else j - 1;
          WithoutAt(rows, k, i);
          WithoutAt(rows, k, j);
          assert rows[i] != rows[k];
          assert rows[i] in NLargest(w, n - 1);
          assert rows[j] !in NLargest(w, n - 1);
        }
      }
    }
  }

  /** No row left out of `picks` scores more than a row in it. */
  predicate OutScores(picks: seq<Row>, rows: seq<Row>)
  {
    forall x, y :: x in picks && y in rows && y !in picks ==> x.points >= y.points
  }

  /** `nlargest` returns Min(n, |rows|) rows and no unpicked row scores more than a picked one. */
  lemma PicksBest(rows: seq<Row>, n: nat)
    requires Distinct(rows)
    ensures |NLargest(rows, n)| == Min(n, |rows|)
    ensures OutScores(NLargest(rows, n), rows)
  {
    var top := NLargest(rows, n);
    Sizes(rows, n);
    Members(rows, n);
    Beats(rows, n);
    forall x, y | x in top && y in rows && y !in top
      ensures x.points >= y.points
    {
      var i :| 0 <= i < |rows| && rows[i] == x;
      var j :| 0 <= j < |rows| && rows[j] == y;
    }
  }

  /** Taking m is taking n (n <= m) and then m - n more from what is left. */
  lemma {:induction false} Split(rows: seq<Row>, n: nat, m: nat)
    requires n <= m
    ensures NLargest(rows, m) == NLargest(rows, n) + NLargest(Leftover(rows, n), m - n)
    decreases n
  {
    if n == 0 || rows == [] {
      assert NLargest(rows, n) == [] && Leftover(rows, n) == rows;
    } else {
      var k := FirstMax(rows);
      var w := Without(rows, k);
      Step(rows, m);
      Step(rows, n);
      Split(w, n - 1, m - 1);
      Assoc([rows[k]], NLargest(w, n - 1), NLargest(Leftover(w, n - 1), m - n));
    }
  }

  /** Asking for more rows than there are gives all of them: only Min(n, |rows|) matters. */
  lemma {:induction false} Cap(rows: seq<Row>, n: nat, m: nat)
    requires Min(n, |rows|) == Min(m, |rows|)
    ensures NLargest(rows, n) == NLargest(rows, m)
    decreases n
  {
    if n == 0 || rows == [] {
      assert NLargest(rows, n) == [] && NLargest(rows, m) == [];
    } else {
      var w := Without(rows, FirstMax(rows));
      Step(rows, n);
      Step(rows, m);
      Cap(w, n - 1, m - 1);
    }
  }

  /**
   * No choice of distinct rows beats the same number of top rows: any xs drawn
   * from rows has |xs| <= |rows| and Sum(xs) <= Sum(NLargest(rows, |xs|)).
   */
  lemma {:induction false} IsBest(rows: seq<Row>, xs: seq<Row>)
    requires Distinct(rows) && Distinct(xs) && Within(xs, rows)
    ensures |xs| <= |rows|
    ensures Sum(xs) <= Sum(NLargest(rows, |xs|))
    decreases |rows|
  {
    if xs != [] {
      assert xs[0] in rows;
      var k := FirstMax(rows);
      var w := Without(rows, k);
      WithoutMembers(rows, k);
      var i: nat := 0;
      if rows[k] in xs {
        i :| i < |xs| && xs[i] == rows[k];
      }
      assert rows[k].points >= xs[i].points by {
        assert xs[i] in rows;
      }
      var rest := Without(xs, i);
      WithoutMembers(xs, i);
      forall x | x in rest ensures x in w {
        assert x in xs && x != xs[i];
        assert x != rows[k];
      }
      IsBest(w, rest);
      SumWithout(xs, i);
      assert NLargest(rows, |xs|) == [rows[k]] + NLargest(w, |xs| - 1);
      assert ([rows[k]] + NLargest(w, |xs| - 1))[1..] == NLargest(w, |xs| - 1);
    }
  }

  /** Excluding the picks' row labels leaves exactly the left-over rows, when labels are unique. */
  lemma {:induction false} ExcludingPicks(rows: seq<Row>, n: nat)
    requires UniqueIndices(rows)
    ensures Excluding(rows, Indices(NLargest(rows, n))) == Leftover(rows, n)
    decreases n
  {
    if n == 0 || rows == [] {
      assert NLargest(rows, n) == [] && Leftover(rows, n) == rows;
      assert Indices([]) == {};
      WhereAll(rows, LabelNotIn({}));
    } else {
      var k := FirstMax(rows);
      var w := Without(rows, k);
      var ids := Indices(NLargest(w, n - 1));
      Step(rows, n);
      assert Indices(NLargest(rows, n)) == ids + {rows[k].index} by {
        IndicesCons(rows[k], NLargest(w, n - 1));
      }
      assert UniqueIndices(w) by {
        WithoutMembers(rows, k);
      }
      calc {
        Excluding(rows, ids + {rows[k].index});
        { ExcludingTakenRow(rows, k, ids); }
        Excluding(w, ids);
        { ExcludingPicks(w, n - 1); }
        Leftover(w, n - 1);
      }
    }
  }

  /** With unique labels, excluding one more row's label drops exactly that row. */
  lemma ExcludingTakenRow(rows: seq<Row>, k: nat, ids: set<nat>)
    requires k < |rows| && UniqueIndices(rows)
    ensures Excluding(rows, ids + {rows[k].index}) == Excluding(Without(rows, k), ids)
  {
    var ids' := ids + {rows[k].index};
    WithoutMembers(rows, k);
    forall y | y in Without(rows, k) ensures Keeps(LabelNotIn(ids'), y) == Keeps(LabelNotIn(ids), y) {
      assert y.index in Indices(Without(rows, k));
    }
    WhereWithout(rows, k, LabelNotIn(ids'), LabelNotIn(ids));
  }
}
