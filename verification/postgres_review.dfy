/** The PostgreSQL review store: the `review` table (id to row) and the
    `coach_review` link table (a sequence of rows), changed in place by the
    write operations. Every statement's driver failure is an input. */
module Postgres {
  import opened Errors
  import opened Models
  import opened Dtos
  import opened UpdateQuery
  import opened Grouping

  /** The driver failures of the create transaction, one per step. */
  datatype TxFaults = TxFaults(
    begin: Option<DbFault>,
    insertReview: Option<DbFault>,
    insertLink: Option<DbFault>,
    commit: Option<DbFault>)

  /** The error the create transaction ends with, or None when it commits:
      the first step that fails, in order begin, review insert, link insert,
      commit. The model assumes `id` is the key of the `review` table, so the
      review insert also fails when the id is already stored. */
  function TxFailure(review: map<Uuid, Review>, id: Uuid, faults: TxFaults): Option<Error>
  {
    if faults.begin.Some? then Some(Tx(BeginTx, faults.begin.value))
    else if id in review then Some(Tx(InsertReview, UniqueViolation))
    else if faults.insertReview.Some? then Some(Tx(InsertReview, faults.insertReview.value))
    else if faults.insertLink.Some? then Some(Tx(LinkReview, faults.insertLink.value))
    else if faults.commit.Some? then Some(Tx(CommitTx, faults.commit.value))
    else None
  }

  class ReviewRepository {
    var review: map<Uuid, Review>
    var coachReview: seq<Link>

    /** Each review row is stored under its own id. */
    ghost predicate Valid()
      reads this
    {
      forall id :: id in review ==> review[id].id == id
    }

    /** Every review row has at least one link row. */
    ghost predicate Linked()
      reads this
    {
      forall id :: id in review ==> exists l :: l in coachReview && l.reviewId == id
    }

    /** A store over a database that may already hold rows. */
    constructor (review: map<Uuid, Review>, coachReview: seq<Link>)
      requires forall id :: id in review ==> review[id].id == id
      ensures Valid()
      ensures this.review == review && this.coachReview == coachReview
    {
      this.review := review;
      this.coachReview := coachReview;
    }

    /** Inserts the review row and its link row in one transaction: both rows
        appear or, when any step fails, neither does and the failing step's
        error is returned. */
    method CreateCoachReview(r: Review, coachId: Uuid, faults: TxFaults) returns (err: Option<Error>)
      requires Valid()
      modifies this
      ensures Valid()
      ensures old(Linked()) ==> Linked()
      ensures err == TxFailure(old(review), r.id, faults)
      ensures err.None? ==> review == old(review)[r.id := r] && coachReview == old(coachReview) + [Link(coachId, r.id)]
      ensures err.Some? ==> review == old(review) && coachReview == old(coachReview)
    {
      if faults.begin.Some? {
        return Some(Tx(BeginTx, faults.begin.value));
      }
      // The transaction works on its own copy; the deferred rollback drops it.
      var txReview, txLinks := review, coachReview;

      var insertFault := if r.id in txReview then Some(UniqueViolation) else faults.insertReview;
      if insertFault.Some? {
        return Some(Tx(InsertReview, insertFault.value));
      }
      txReview := txReview[r.id := r];

      if faults.insertLink.Some? {
        return Some(Tx(LinkReview, faults.insertLink.value));
      }
      txLinks := txLinks + [Link(coachId, r.id)];

      if faults.commit.Some? {
        return Some(Tx(CommitTx, faults.commit.value));
      }
      review, coachReview := txReview, txLinks;
      err := None;
    }

    /** Reads one review: the stored row when `id` is present, ReviewNotFound
        when no row matches, and any other read failure unchanged. */
    method GetReviewById(id: Uuid, fault: Option<DbFault>) returns (res: Result<Review>)
      requires Valid()
      ensures fault.Some? ==> res == Err(Db(fault.value))
      ensures fault.None? && id !in review ==> res == Err(Domain(ReviewNotFound))
      ensures res.Ok? <==> fault.None? && id in review
      ensures res.Ok? ==> res.value == review[id] && res.value.id == id
    {
      if fault.Some? {
        return Err(Db(fault.value));
      }
      if id !in review {
        return Err(Domain(ReviewNotFound));
      }
      res := Ok(review[id]);
    }

    /** The partial update: builds the statement and executes it. The row with
        `cmd.id`, if any, gets `cmd.updatedTime` and, when `cmd.body` is not
        empty, `cmd.body`; its id, user and creation time are kept. An absent
        id changes nothing and is not an error. The link table is untouched. */
    method UpdateReview(cmd: UpdateReviewCommand, fault: Option<DbFault>) returns (err: Option<Error>)
      requires Valid()
      modifies this
      ensures Valid()
      ensures old(Linked()) ==> Linked()
      ensures coachReview == old(coachReview)
      ensures fault.Some? ==> err == Some(Db(fault.value)) && review == old(review)
      ensures fault.None? ==> err.None? && review == PatchTable(old(review), cmd.id, cmd.body, cmd.updatedTime)
    {
      var stmt, params := BuildUpdate(cmd);
      if fault.Some? {
        return Some(Db(fault.value));
      }
      review := Execute(review, stmt.value, params);
      err := None;
    }

    /** Deletes the review row with `id`; an absent id is not an error. The
        link rows are left as they are. */
    method DeleteReviewById(id: Uuid, fault: Option<DbFault>) returns (err: Option<Error>)
      requires Valid()
      modifies this
      ensures Valid()
      ensures old(Linked()) ==> Linked()
      ensures coachReview == old(coachReview)
      ensures fault.Some? ==> err == Some(Db(fault.value)) && review == old(review)
      ensures fault.None? ==> err.None? && review == old(review) - {id}
    {
      if fault.Some? {
        return Some(Db(fault.value));
      }
      review := review - {id};
      err := None;
    }

    /** The single-coach query. Its filter compares the argument with the
        link's review id, so it returns copies of the review whose id equals
        the argument (one per link row naming it), not the coach's reviews. */
    method GetCoachReviews(coachId: Uuid, fault: Option<DbFault>) returns (res: Result<seq<Review>>)
      requires Valid()
      ensures fault.Some? ==> res == Err(Db(fault.value))
      ensures fault.None? ==> res == Ok(JoinOnReviewId(review, coachReview, coachId))
      ensures res.Ok? ==> |res.value| == if coachId in review then LinksTo(coachReview, coachId) else 0
      ensures res.Ok? ==> forall j :: 0 <= j < |res.value| ==> res.value[j].id == coachId && res.value[j] == review[coachId]
    {
      if fault.Some? {
        return Err(Db(fault.value));
      }
      var reviews := JoinOnReviewId(review, coachReview, coachId);
      JoinOnReviewIdCopies(review, coachReview, coachId);
      res := Ok(reviews);
    }

    /** The bulk query: an empty id list yields an empty map without querying;
        otherwise the joined rows are grouped by coach in row order. Every key
        is a requested coach whose list is its linked reviews in link order,
        coaches without reviews are absent, and the lists together hold one
        review per joined row. */
    method GetCoachesReviews(ids: seq<Uuid>, fault: Option<DbFault>) returns (res: Result<map<Uuid, seq<Review>>>)
      requires Valid()
      ensures ids == [] ==> res == Ok(map[])
      ensures ids != [] && fault.Some? ==> res == Err(Db(fault.value))
      ensures ids != [] && fault.None? ==> res == Ok(GroupRows(JoinRows(review, coachReview, ids)))
      ensures res.Ok? ==> forall c :: c in res.value ==> c in ids && res.value[c] != []
      ensures res.Ok? ==> forall c :: c in ids ==>
        (c in res.value <==> CoachReviews(review, coachReview, c) != [])
      ensures res.Ok? ==> forall c :: c in res.value ==> res.value[c] == CoachReviews(review, coachReview, c)
      ensures res.Ok? ==> TotalSize(res.value) == |JoinRows(review, coachReview, ids)|
    {
      var coachReviews: map<Uuid, seq<Review>> := map[];
      if |ids| == 0 {
        JoinRowsNoIds(review, coachReview);
        return Ok(coachReviews);
      }
      if fault.Some? {
        return Err(Db(fault.value));
      }
      var rows := JoinRows(review, coachReview, ids);
      var i := 0;
      while i < |rows|
        invariant 0 <= i <= |rows|
        invariant coachReviews == GroupRows(rows[..i])
      {
        var row := rows[i];
        var r := Review(row.id, row.userId, row.body, row.updatedTime, row.createdTime);
        var list := if row.coachId in coachReviews then coachReviews[row.coachId] else [];
        assert rows[..i + 1][..i] == rows[..i];
        coachReviews := coachReviews[row.coachId := list + [r]];
        i := i + 1;
      }
      assert rows[..i] == rows;
      forall c
        ensures c in coachReviews <==> c in ids && CoachReviews(review, coachReview, c) != []
        ensures c in coachReviews ==> coachReviews[c] == CoachReviews(review, coachReview, c)
      {
        GroupedKeys(review, coachReview, ids, c);
      }
      GroupRowsSize(rows);
      res := Ok(coachReviews);
    }
  }
}
