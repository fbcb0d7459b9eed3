/** The rows of the join between `review` and `coach_review`, and what
    grouping them by coach yields. */
module Grouping {
  import opened Models

  /** One row of the bulk join: a coach id and the columns of a review linked to it. */
  datatype ResultRow = ResultRow(
    coachId: Uuid,
    id: Uuid,
    body: string,
    userId: Uuid,
    createdTime: Time,
    updatedTime: Time)

  function RowOf(coachId: Uuid, r: Review): ResultRow
  {
    ResultRow(coachId, r.id, r.body, r.userId, r.createdTime, r.updatedTime)
  }

  /** The review a joined row is scanned into. */
  function ToReview(row: ResultRow): Review
  {
    Review(row.id, row.userId, row.body, row.updatedTime, row.createdTime)
  }

  /** The join filtered on `coach_review.coach_id = ANY(ids)`: one row per link
      row whose coach is requested and whose review exists, in link-row order. */
  function JoinRows(review: map<Uuid, Review>, links: seq<Link>, ids: seq<Uuid>): seq<ResultRow>
  {
    if links == [] then []
    else
      var l := links[|links| - 1];
      JoinRows(review, links[..|links| - 1], ids)
        + (if l.coachId in ids && l.reviewId in review then [RowOf(l.coachId, review[l.reviewId])] else [])
  }

  /** The reviews linked to coach `c`, in link-row order: the reference
      meaning of "the reviews of a coach". */
  function CoachReviews(review: map<Uuid, Review>, links: seq<Link>, c: Uuid): seq<Review>
  {
    if links == [] then []
    else
      var l := links[|links| - 1];
      CoachReviews(review, links[..|links| - 1], c)
        + (if l.coachId == c && l.reviewId in review then [review[l.reviewId]] else [])
  }

  /** The join filtered on `coach_review.review_id = x`: one copy of review
      `x` per link row that names `x` as its review. */
  function JoinOnReviewId(review: map<Uuid, Review>, links: seq<Link>, x: Uuid): seq<Review>
  {
    if links == [] then []
    else
      var l := links[|links| - 1];
      JoinOnReviewId(review, links[..|links| - 1], x)
        + (if l.reviewId == x && l.reviewId in review then [review[l.reviewId]] else [])
  }

  /** The number of link rows naming review `x`. */
  function LinksTo(links: seq<Link>, x: Uuid): nat
  {
    if links == [] then 0
    else LinksTo(links[..|links| - 1], x) + (if links[|links| - 1].reviewId == x then 1 else 0)
  }

  /** The reviews of the rows for coach `c`, in row order. */
  function RowsOf(rows: seq<ResultRow>, c: Uuid): seq<Review>
  {
    if rows == [] then []
    else
      var row := rows[|rows| - 1];
      RowsOf(rows[..|rows| - 1], c) + (if row.coachId == c then [ToReview(row)] else [])
  }

  function Lookup(m: map<Uuid, seq<Review>>, c: Uuid): seq<Review>
  {
    if c in m then m[c] else []
  }

  /** The rows grouped by coach: each row's review appended, in row order, to
      its coach's list, a missing list counting as empty. */
  function GroupRows(rows: seq<ResultRow>): map<Uuid, seq<Review>>
  {
    if rows == [] then map[]
    else
      var m := GroupRows(rows[..|rows| - 1]);
      var row := rows[|rows| - 1];
      m[row.coachId := Lookup(m, row.coachId) + [ToReview(row)]]
  }

  /** The number of reviews in all lists of a grouping. */
  ghost function TotalSize(m: map<Uuid, seq<Review>>): nat
    decreases |m|
  {
    if m == map[] then 0
    else
      var k :| k in m;
      assert |m - {k}| < |m| by { assert (m - {k}).Keys == m.Keys - {k}; }
      |m[k]| + TotalSize(m - {k})
  }

  /** Grouping puts every row's review in its coach's list and nowhere else:
      a coach has a list exactly when some row is for it, and that list is the
      coach's rows in order. */
  lemma {:induction false} GroupRowsByCoach(rows: seq<ResultRow>, c: Uuid)
    ensures c in GroupRows(rows) <==> RowsOf(rows, c) != []
    ensures c in GroupRows(rows) ==> GroupRows(rows)[c] == RowsOf(rows, c)
  {
    if rows != [] {
      GroupRowsByCoach(rows[..|rows| - 1], c);
    }
  }

  /** Selecting one coach's rows from the bulk join gives that coach's reviews
      when the coach was requested, and nothing otherwise. */
  lemma {:induction false} JoinRowsOfCoach(review: map<Uuid, Review>, links: seq<Link>, ids: seq<Uuid>, c: Uuid)
    ensures RowsOf(JoinRows(review, links, ids), c) == if c in ids then CoachReviews(review, links, c) else []
  {
    if links != [] {
      var init := links[..|links| - 1];
      var l := links[|links| - 1];
      JoinRowsOfCoach(review, init, ids, c);
      var j := JoinRows(review, init, ids);
      if l.coachId in ids && l.reviewId in review {
        var row := RowOf(l.coachId, review[l.reviewId]);
        assert (j + [row])[..|j|] == j;
        assert ToReview(row) == review[l.reviewId];
        assert RowsOf(j + [row], c) == RowsOf(j, c) + (if l.coachId == c then [review[l.reviewId]] else []);
      } else {
        assert JoinRows(review, links, ids) == j;
      }
    }
  }

  /** Every key of a grouping of the bulk join is a requested coach with a
      non-empty list. */
  lemma {:induction false} GroupedKeys(review: map<Uuid, Review>, links: seq<Link>, ids: seq<Uuid>, c: Uuid)
    ensures c in GroupRows(JoinRows(review, links, ids)) <==> c in ids && CoachReviews(review, links, c) != []
    ensures c in GroupRows(JoinRows(review, links, ids)) ==>
      GroupRows(JoinRows(review, links, ids))[c] == CoachReviews(review, links, c)
  {
    GroupRowsByCoach(JoinRows(review, links, ids), c);
    JoinRowsOfCoach(review, links, ids, c);
  }

  /** With no coach requested the join has no rows. */
  lemma {:induction false} JoinRowsNoIds(review: map<Uuid, Review>, links: seq<Link>)
    ensures JoinRows(review, links, []) == []
  {
    if links != [] {
      JoinRowsNoIds(review, links[..|links| - 1]);
    }
  }

  /** The total does not depend on which key is taken out first. */
  lemma {:induction false} TotalSizeWithout(m: map<Uuid, seq<Review>>, k: Uuid)
    requires k in m
    ensures TotalSize(m) == |m[k]| + TotalSize(m - {k})
    decreases |m|
  {
    var j :| j in m && TotalSize(m) == |m[j]| + TotalSize(m - {j});
    if j != k {
      assert |m - {j}| < |m| by { assert (m - {j}).Keys == m.Keys - {j}; }
      assert |m - {k}| < |m| by { assert (m - {k}).Keys == m.Keys - {k}; }
      TotalSizeWithout(m - {j}, k);
      TotalSizeWithout(m - {k}, j);
      assert m - {j} - {k} == m - {k} - {j};
    }
  }

  /** Grouping loses no row and duplicates none: the lists hold as many
      reviews as there are rows. */
  lemma {:induction false} GroupRowsSize(rows: seq<ResultRow>)
    ensures TotalSize(GroupRows(rows)) == |rows|
  {
    if rows != [] {
      var init := rows[..|rows| - 1];
      var m := GroupRows(init);
      var c := rows[|rows| - 1].coachId;
      var s := Lookup(m, c) + [ToReview(rows[|rows| - 1])];
      GroupRowsSize(init);
      var g := m[c := s];
      TotalSizeWithout(g, c);
      assert g - {c} == m - {c};
      if c in m {
        TotalSizeWithout(m, c);
      } else {
        assert m - {c} == m;
      }
    }
  }

  /** The review-id join returns only review `x`, once per link row naming it,
      and nothing when `x` is not a stored review. */
  lemma {:induction false} JoinOnReviewIdCopies(review: map<Uuid, Review>, links: seq<Link>, x: Uuid)
    ensures |JoinOnReviewId(review, links, x)| == if x in review then LinksTo(links, x) else 0
    ensures forall j :: 0 <= j < |JoinOnReviewId(review, links, x)| ==>
      x in review && JoinOnReviewId(review, links, x)[j] == review[x]
  {
    if links != [] {
      JoinOnReviewIdCopies(review, links[..|links| - 1], x);
    }
  }
}
