/**
 * The per-player frame the optimizer works on: a sequence of rows, each carrying
 * its row label and the five columns Team Name, Team ID, Player, Position, Points.
 * Boolean-mask selections (`df[df[col] == v]`, `rows[~rows.index.isin(ids)]`) keep
 * the rows they select in frame order and keep their labels.
 */
module Frame {

  /**
   * The Position column. The optimizer only ever compares it with the six
   * lineup positions, so any other value is kept verbatim as `Other`.
   */
  datatype Position = QB | RB | WR | TE | K | DEF | Other(text: string)

  /** Points are whole hundredths of a fantasy point. */
  datatype Row = Row(index: nat, teamName: string, teamId: int, player: string, position: Position, points: int)

  function Min(a: int, b: int): int
  {
    if a <= b then a else b
  }

  /** `rows['Points'].sum()` */
  function Sum(rows: seq<Row>): int
  {
    if rows == [] then 0 else rows[0].points + Sum(rows[1..])
  }

  lemma {:induction false} SumAppend(a: seq<Row>, b: seq<Row>)
    ensures Sum(a + b) == Sum(a) + Sum(b)
  {
    if a == [] {
      assert a + b == b;
    } else {
      assert (a + b)[1..] == a[1..] + b;
      SumAppend(a[1..], b);
    }
  }

  lemma Assoc<T>(a: seq<T>, b: seq<T>, c: seq<T>)
    ensures a + (b + c) == (a + b) + c
  {
  }

  /** The sequence with the row at position `k` taken out. */
  function Without(s: seq<Row>, k: nat): (r: seq<Row>)
    requires k < |s|
    ensures |r| == |s| - 1
  {
    s[..k] + s[k + 1..]
  }

  lemma SumWithout(s: seq<Row>, k: nat)
    requires k < |s|
    ensures Sum(s) == s[k].points + Sum(Without(s, k))
  {
    var front, back := s[..k], s[k..];
    assert Sum(s) == Sum(front) + Sum(back) by {
      assert s == front + back;
      SumAppend(front, back);
    }
    assert Sum(back) == s[k].points + Sum(s[k + 1..]) by {
      assert back[1..] == s[k + 1..];
    }
    SumAppend(front, s[k + 1..]);
  }

  /** No row occurs twice. */
  predicate Distinct(s: seq<Row>)
  {
    forall i, j :: 0 <= i < j < |s| ==> s[i] != s[j]
  }

  /** No row label occurs twice (a frame built from a list of records has labels 0, 1, 2, ...). */
  predicate UniqueIndices(s: seq<Row>)
  {
    forall i, j :: 0 <= i < j < |s| ==> s[i].index != s[j].index
  }

  /** Every row of `t` is a row of `s`. */
  predicate Within(t: seq<Row>, s: seq<Row>)
  {
    forall x :: x in t ==> x in s
  }

  /** The set of row labels, `rows.index`. */
  function Indices(rows: seq<Row>): set<nat>
  {
    set x | x in rows :: x.index
  }

  lemma IndicesCons(x: Row, s: seq<Row>)
    ensures Indices([x] + s) == {x.index} + Indices(s)
  {
    assert forall y :: y in [x] + s <==> y == x || y in s;
  }

  lemma WithoutMembers(s: seq<Row>, k: nat)
    requires k < |s|
    ensures Within(Without(s, k), s)
    ensures forall x :: x in s && x != s[k] ==> x in Without(s, k)
    ensures Distinct(s) ==> Distinct(Without(s, k)) && s[k] !in Without(s, k)
    ensures UniqueIndices(s) ==> UniqueIndices(Without(s, k))
    ensures UniqueIndices(s) ==> s[k].index !in Indices(Without(s, k))
  {
    var w := Without(s, k);
    assert forall i :: 0 <= i < |w| ==> w[i] == s[if i < k then i else i + 1];
    forall x | x in s && x != s[k]
      ensures x in w
    {
      var j :| 0 <= j < |s| && s[j] == x;
      assert w[if j < k then j else j - 1] == x;
    }
  }

  lemma DistinctAppend(a: seq<Row>, b: seq<Row>)
    requires Distinct(a) && Distinct(b)
    requires forall x :: x in a ==> x !in b
    ensures Distinct(a + b)
  {
    forall i, j | 0 <= i < j < |a + b|
      ensures (a + b)[i] != (a + b)[j]
    {
      if j >= |a| && i < |a| {
        assert (a + b)[i] in a && (a + b)[j] in b;
      }
    }
  }

  lemma DistinctParts(a: seq<Row>, b: seq<Row>)
    requires Distinct(a + b)
    ensures Distinct(a) && Distinct(b)
    ensures forall x :: x in a ==> x !in b
  {
    assert forall i :: 0 <= i < |a| ==> (a + b)[i] == a[i];
    assert forall j :: 0 <= j < |b| ==> (a + b)[|a| + j] == b[j];
  }

  /** Distinct rows drawn from a frame with unique labels have unique labels. */
  lemma UniqueIndicesWithin(s: seq<Row>, t: seq<Row>)
    requires UniqueIndices(s) && Distinct(t) && Within(t, s)
    ensures UniqueIndices(t)
  {
    forall i, j | 0 <= i < j < |t|
      ensures t[i].index != t[j].index
    {
      assert t[i] in s && t[j] in s;
      var a :| 0 <= a < |s| && s[a] == t[i];
      var b :| 0 <= b < |s| && s[b] == t[j];
    }
  }

  /** Every row's position is one of `positions`. */
  predicate AllIn(s: seq<Row>, positions: set<Position>)
  {
    forall x :: x in s ==> x.position in positions
  }

  lemma UniqueIndicesDistinct(s: seq<Row>)
    requires UniqueIndices(s)
    ensures Distinct(s)
  {
  }

  lemma SumCons(x: Row, s: seq<Row>)
    ensures Sum([x] + s) == x.points + Sum(s)
  {
    assert ([x] + s)[1..] == s;
  }

  /** The boolean masks the optimizer selects rows with. */
  datatype Mask = TeamIs(name: string) | PositionIs(pos: Position) | LabelNotIn(ids: set<nat>)

  predicate Keeps(m: Mask, x: Row)
  {
    match m
    case TeamIs(name) => x.teamName == name
    case PositionIs(pos) => x.position == pos
    case LabelNotIn(ids) => x.index !in ids
  }

  /** A boolean-mask selection: the rows the mask keeps, in frame order. */
  function Where(rows: seq<Row>, keep: Mask): (r: seq<Row>)
    ensures |r| <= |rows|
    ensures forall x :: x in r <==> x in rows && Keeps(keep, x)
  {
    if rows == [] then []
    else (if Keeps(keep, rows[0]) then [rows[0]] else []) + Where(rows[1..], keep)
  }

  lemma {:induction false} WhereAppend(a: seq<Row>, b: seq<Row>, keep: Mask)
    ensures Where(a + b, keep) == Where(a, keep) + Where(b, keep)
  {
    if a == [] {
      assert a + b == b;
    } else {
      assert (a + b)[1..] == a[1..] + b;
      WhereAppend(a[1..], b, keep);
    }
  }

  lemma {:induction false} WhereDistinct(rows: seq<Row>, keep: Mask)
    requires Distinct(rows)
    ensures Distinct(Where(rows, keep))
  {
    if rows != [] {
      assert rows == [rows[0]] + rows[1..];
      DistinctParts([rows[0]], rows[1..]);
      WhereDistinct(rows[1..], keep);
      DistinctAppend(if Keeps(keep, rows[0]) then [rows[0]] else [], Where(rows[1..], keep));
    }
  }

  /** Two masks that agree on every row select the same rows. */
  lemma {:induction false} WhereAgree(rows: seq<Row>, f: Mask, g: Mask)
    requires forall x :: x in rows ==> Keeps(f, x) == Keeps(g, x)
    ensures Where(rows, f) == Where(rows, g)
  {
    if rows != [] {
      assert forall x :: x in rows[1..] ==> x in rows;
      WhereAgree(rows[1..], f, g);
    }
  }

  lemma {:induction false} WhereAll(rows: seq<Row>, keep: Mask)
    requires forall x :: x in rows ==> Keeps(keep, x)
    ensures Where(rows, keep) == rows
  {
    if rows != [] {
      assert forall x :: x in rows[1..] ==> x in rows;
      WhereAll(rows[1..], keep);
      assert [rows[0]] + rows[1..] == rows;
    }
  }

  /** A mask that rejects row k and agrees with `g` on every other row selects what `g` selects without row k. */
  lemma {:induction false} WhereWithout(rows: seq<Row>, k: nat, f: Mask, g: Mask)
    requires k < |rows| && !Keeps(f, rows[k])
    requires forall y :: y in Without(rows, k) ==> Keeps(f, y) == Keeps(g, y)
    ensures Where(rows, f) == Where(Without(rows, k), g)
  {
    if k == 0 {
      assert Without(rows, k) == rows[1..];
      WhereAgree(rows[1..], f, g);
    } else {
      var w := Without(rows, k);
      assert w == [rows[0]] + Without(rows[1..], k - 1);
      assert w[1..] == Without(rows[1..], k - 1);
      assert rows[0] in w;
      forall y | y in Without(rows[1..], k - 1) ensures Keeps(f, y) == Keeps(g, y) {
        assert y in w;
      }
      WhereWithout(rows[1..], k - 1, f, g);
    }
  }

  lemma WhereNone(rows: seq<Row>, keep: Mask)
    requires forall x :: x in rows ==> !Keeps(keep, x)
    ensures Where(rows, keep) == []
  {
  }

  /** `df[df['Team Name'] == name]` */
  function OfTeam(rows: seq<Row>, name: string): seq<Row>
  {
    Where(rows, TeamIs(name))
  }

  /** `df[df['Position'] == pos]` */
  function OfPosition(rows: seq<Row>, pos: Position): seq<Row>
  {
    Where(rows, PositionIs(pos))
  }

  /** `rows[~rows.index.isin(ids)]` */
  function Excluding(rows: seq<Row>, ids: set<nat>): seq<Row>
  {
    Where(rows, LabelNotIn(ids))
  }
}
