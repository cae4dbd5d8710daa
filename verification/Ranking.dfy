/**
 ORDER BY and LIMIT: a set of rows put in order of distance, newest first among equals, and by
 identifier where the query leaves the order open.
 */
module Ranking {

  datatype Row = Row(id: nat, distance: real, created: int)

  predicate Before(a: Row, b: Row) {
    || a.distance < b.distance
    || (a.distance == b.distance && a.created > b.created)
    || (a.distance == b.distance && a.created == b.created && a.id < b.id)
  }

  predicate IsFirst(rows: set<Row>, r: Row) {
    r in rows && forall x :: x in rows && x != r ==> Before(r, x)
  }

  lemma {:induction false} FirstExists(rows: set<Row>)
    requires rows != {}
    ensures exists r :: IsFirst(rows, r)
    decreases rows
  {
    var x :| x in rows;
    if rows == {x} {
      assert IsFirst(rows, x);
    } else {
      FirstExists(rows - {x});
      var r :| IsFirst(rows - {x}, r);
      assert rows == (rows - {x}) + {x};
      assert IsFirst(rows, if Before(x, r) then x else r);
    }
  }

  ghost function First(rows: set<Row>): (r: Row)
    requires rows != {}
    ensures IsFirst(rows, r)
  {
    FirstExists(rows);
    var r :| IsFirst(rows, r);
    r
  }

  ghost function Ranked(rows: set<Row>): seq<Row>
    decreases rows
  {
    if rows == {} then [] else [First(rows)] + Ranked(rows - {First(rows)})
  }

  // A sequence that is in order and holds exactly these rows.
  ghost predicate IsRanking(s: seq<Row>, rows: set<Row>) {
    && (forall i, j :: 0 <= i < j < |s| ==> Before(s[i], s[j]))
    && (forall x :: x in s <==> x in rows)
  }

  lemma {:induction false} RankedIsRanking(rows: set<Row>)
    ensures IsRanking(Ranked(rows), rows)
    decreases rows
  {
    if rows != {} {
      var r := First(rows);
      RankedIsRanking(rows - {r});
      var rest := Ranked(rows - {r});
      forall i, j | 0 <= i < j < |[r] + rest|
        ensures Before(([r] + rest)[i], ([r] + rest)[j])
      {
        assert rest[j - 1] in rest;
      }
    }
  }

  // There is only one such sequence.
  lemma {:induction false} RankingUnique(s: seq<Row>, rows: set<Row>)
    requires IsRanking(s, rows)
    ensures s == Ranked(rows)
    decreases rows
  {
    if s == [] {
      assert rows == {};
    } else {
      assert s[0] in s;
      var r := First(rows);
      assert r in s;
      var i :| 0 <= i < |s| && s[i] == r;
      assert s[0] == r;
      var rest := s[1..];
      forall x
        ensures x in rest <==> x in rows - {r}
      {
        assert s == [r] + rest;
        if x in rest {
          var k :| 0 <= k < |rest| && rest[k] == x;
          assert Before(s[0], s[k + 1]);
        }
      }
      RankingUnique(rest, rows - {r});
    }
  }

  function TakeWithin(s: seq<Row>, radius: real): seq<Row> {
    if s == [] || s[0].distance > radius then [] else [s[0]] + TakeWithin(s[1..], radius)
  }

  function Limit(s: seq<Row>, limit: nat): seq<Row> {
    if |s| <= limit then s else s[..limit]
  }

  // Restricting the rows to a radius and then ranking them gives the front of the ranking.
  lemma {:induction false} WithinIsPrefix(rows: set<Row>, radius: real)
    ensures Ranked(set x | x in rows && x.distance <= radius) == TakeWithin(Ranked(rows), radius)
    decreases rows
  {
    var near := set x | x in rows && x.distance <= radius;
    if rows != {} {
      var r := First(rows);
      if r.distance <= radius {
        assert r in near;
        assert First(near) == r;
        assert near - {r} == set x | x in rows - {r} && x.distance <= radius;
        WithinIsPrefix(rows - {r}, radius);
        assert Ranked(rows)[1..] == Ranked(rows - {r});
      } else {
        assert near == {};
      }
    }
  }

  lemma {:induction false} LimitWithin(s: seq<Row>, radius: real, limit: nat)
    ensures Limit(TakeWithin(s, radius), limit) == TakeWithin(Limit(s, limit), radius)
    decreases limit
  {
    if s != [] && s[0].distance <= radius && limit > 0 {
      LimitWithin(s[1..], radius, limit - 1);
      var near := TakeWithin(s[1..], radius);
      assert Limit([s[0]] + near, limit) == [s[0]] + Limit(near, limit - 1);
      assert Limit(s, limit)[1..] == Limit(s[1..], limit - 1);
    }
  }

  // What the limit cuts off comes after everything that is kept.
  lemma LimitIsTop(rows: set<Row>, limit: nat, x: Row)
    requires x in rows
    ensures var kept := Limit(Ranked(rows), limit);
      x in kept || (|kept| == limit && forall y :: y in kept ==> Before(y, x))
  {
    RankedIsRanking(rows);
    var all := Ranked(rows);
    var i :| 0 <= i < |all| && all[i] == x;
    if i < limit {
      assert Limit(all, limit)[i] == x;
    }
  }

  // ----- Whatever the database does with ties -----

  // The columns of ORDER BY alone, which leave the order of some rows open.
  predicate NotAfter(a: Row, b: Row) {
    a.distance < b.distance || (a.distance == b.distance && a.created >= b.created)
  }

  predicate SameKeys(a: Row, b: Row) {
    a.distance == b.distance && a.created == b.created
  }

  // Each of the rows once, in an order that the query permits.
  ghost predicate IsPermitted(s: seq<Row>, rows: set<Row>) {
    && (forall i, j :: 0 <= i < j < |s| ==> NotAfter(s[i], s[j]) && s[i] != s[j])
    && (forall x :: x in s <==> x in rows)
  }

  ghost predicate SameKeysThroughout(s: seq<Row>, t: seq<Row>) {
    |s| == |t| && forall i :: 0 <= i < |s| ==> SameKeys(s[i], t[i])
  }

  // Everything in front of the first row ties with it.
  lemma FrontTies(s: seq<Row>, rows: set<Row>, i: nat)
    requires IsPermitted(s, rows) && i < |s| && IsFirst(rows, s[i])
    ensures forall k :: 0 <= k <= i ==> SameKeys(s[k], s[i])
  {
    forall k | 0 <= k < i
      ensures SameKeys(s[k], s[i])
    {
      assert NotAfter(s[k], s[i]) && s[k] in s;
      assert Before(s[i], s[k]);
    }
  }

  lemma WithoutOne(s: seq<Row>, rows: set<Row>, i: nat)
    requires IsPermitted(s, rows) && i < |s|
    ensures IsPermitted(s[..i] + s[i + 1..], rows - {s[i]})
  {
    var rest := s[..i] + s[i + 1..];
    forall x
      ensures x in rest <==> x in rows - {s[i]}
    {
      WithoutOneHas(s, i, x);
    }
  }

  lemma WithoutOneHas(s: seq<Row>, i: nat, x: Row)
    requires i < |s| && forall j, k :: 0 <= j < k < |s| ==> s[j] != s[k]
    ensures x in s[..i] + s[i + 1..] <==> x in s && x != s[i]
  {
    var rest := s[..i] + s[i + 1..];
    if x in s && x != s[i] {
      var k :| 0 <= k < |s| && s[k] == x;
      assert rest[if k < i then k else k - 1] == x;
    }
    if x in rest {
      var k :| 0 <= k < |rest| && rest[k] == x;
      assert s[if k < i then k else k + 1] == x;
    }
  }

  // Putting a row back behind rows that tie with it.
  lemma KeysInserted(s: seq<Row>, i: nat, t: seq<Row>)
    requires i < |s| && forall k :: 0 <= k <= i ==> SameKeys(s[k], s[i])
    requires SameKeysThroughout(s[..i] + s[i + 1..], t)
    ensures SameKeysThroughout(s, [s[i]] + t)
  {
    var rest := s[..i] + s[i + 1..];
    forall k | 0 <= k < |s|
      ensures SameKeys(s[k], ([s[i]] + t)[k])
    {
      if k > 0 {
        assert rest[k - 1] == if k - 1 < i then s[k - 1] else s[k];
      }
    }
  }

  // Every permitted order lists the same distances and creation times.
  lemma {:induction false} PermittedKeys(s: seq<Row>, rows: set<Row>)
    requires IsPermitted(s, rows)
    ensures SameKeysThroughout(s, Ranked(rows))
    decreases rows
  {
    assert s != [] ==> s[0] in s;
    if rows != {} {
      var r := First(rows);
      assert r in s;
      var i :| 0 <= i < |s| && s[i] == r;
      FrontTies(s, rows, i);
      WithoutOne(s, rows, i);
      PermittedKeys(s[..i] + s[i + 1..], rows - {r});
      KeysInserted(s, i, Ranked(rows - {r}));
    }
  }

  // So whichever order the database takes, the result of the query has the same length, the same
  // distances and the same creation times as the one here.
  lemma TiesAside(s: seq<Row>, rows: set<Row>, limit: nat)
    requires IsPermitted(s, rows)
    ensures SameKeysThroughout(Limit(s, limit), Limit(Ranked(rows), limit))
  {
    PermittedKeys(s, rows);
  }

  // ----- The loop -----

  // The database orders the rows and cuts them off; the caller appends them one by one.
  method Collect(rows: set<Row>, limit: nat) returns (results: seq<Row>)
    ensures results == Limit(Ranked(rows), limit)
  {
    results := [];
    var rest := rows;
    while rest != {} && |results| < limit
      invariant |results| <= limit
      invariant results + Ranked(rest) == Ranked(rows)
      decreases |rest|
    {
      FirstExists(rest);
      var r :| r in rest && forall x :: x in rest && x != r ==> Before(r, x);
      assert IsFirst(rest, r) && IsFirst(rest, First(rest));
      results := results + [r];
      rest := rest - {r};
    }
  }
}
