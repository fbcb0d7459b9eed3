/** The review use case: checks the user and the coach with their remote
    services before writing, maps remote failures to sentinel errors, assigns
    the id and timestamps, and delegates to the store. The remote answers, the
    fresh id, the clock readings and the store's driver failures are inputs. */
module ReviewUsecase {
  import opened Errors
  import opened Models
  import opened Dtos
  import opened UpdateQuery
  import opened Grouping
  import opened Postgres

  /** The gRPC status codes. */
  datatype Code =
    | OK | Canceled | Unknown | InvalidArgument | DeadlineExceeded | NotFound
    | AlreadyExists | PermissionDenied | ResourceExhausted | FailedPrecondition
    | Aborted | OutOfRange | Unimplemented | Internal | Unavailable | DataLoss
    | Unauthenticated

  /** What a remote existence check returns: the entity, an error carrying a
      gRPC status, or an error that carries none. */
  datatype RemoteOutcome = Found | StatusErr(code: Code) | NonStatusErr

  datatype Service = UserService | CoachService

  /** A request sent to a remote service. */
  datatype RemoteCall = GetUserById(userId: Uuid) | GetCoachById(coachId: Uuid)

  /** What creation returns: the new review, an error, or neither (nil, nil). */
  datatype Reply = Created(review: Review) | Failed(error: Error) | NoReply

  function NotFoundOf(svc: Service): Sentinel
  {
    match svc
    case UserService => UserNotFound
    case CoachService => CoachNotFound
  }

  function InternalErrorOf(svc: Service): Sentinel
  {
    match svc
    case UserService => InternalUserServerError
    case CoachService => InternalCoachServerError
  }

  /** A failed check's status code as an error: NotFound means the entity is
      absent, every other code that the service itself failed. */
  function Classify(svc: Service, code: Code): (e: Sentinel)
    ensures e == NotFoundOf(svc) <==> code == NotFound
    ensures e == InternalErrorOf(svc) <==> code != NotFound
  {
    if code == NotFound then NotFoundOf(svc) else InternalErrorOf(svc)
  }

  /** How one remote check ends creation: None lets it go on; Some(reply)
      stops it with that reply. A status error becomes its classified error;
      an error with no status stops creation with neither review nor error. */
  function Gate(svc: Service, outcome: RemoteOutcome): (g: Option<Reply>)
    ensures g.None? <==> outcome.Found?
    ensures g.Some? ==> !g.value.Created?
    ensures g.Some? && g.value.Failed? <==> outcome.StatusErr?
    ensures outcome.StatusErr? ==> g == Some(Failed(Domain(Classify(svc, outcome.code))))
  {
    match outcome
    case Found => None
    case StatusErr(code) => Some(Failed(Domain(Classify(svc, code))))
    case NonStatusErr => Some(NoReply)
  }

  class ReviewUseCase {
    const reviewRepo: ReviewRepository

    constructor (reviewRepo: ReviewRepository)
      ensures this.reviewRepo == reviewRepo
    {
      this.reviewRepo := reviewRepo;
    }

    /** Checks the user, then the coach, then writes. `user` and `coach` are
        the services' answers, `newId` the generated id, `updatedNow` and
        `createdNow` the two clock readings (in that order). The coach is
        asked only when the user check passes, and the store is written only
        when both pass; on success the returned review is the one stored. */
    method CreateCoachReview(cmd: CreateReviewCommand, user: RemoteOutcome, coach: RemoteOutcome,
                             newId: Uuid, updatedNow: Time, createdNow: Time, faults: TxFaults)
      returns (reply: Reply, calls: seq<RemoteCall>)
      requires reviewRepo.Valid()
      modifies reviewRepo
      ensures reviewRepo.Valid()
      ensures old(reviewRepo.Linked()) ==> reviewRepo.Linked()
      ensures calls == if user.Found? then [GetUserById(cmd.userId), GetCoachById(cmd.coachId)]
                       else [GetUserById(cmd.userId)]
      ensures !user.Found? ==> reply == Gate(UserService, user).value
      ensures user.Found? && !coach.Found? ==> reply == Gate(CoachService, coach).value
      ensures user.Found? && coach.Found? ==>
        var r := Review(newId, cmd.userId, cmd.body, updatedNow, createdNow);
        var failure := TxFailure(old(reviewRepo.review), newId, faults);
        reply == (if failure.Some? then Failed(failure.value) else Created(r))
      ensures reply.Created? ==>
        && reviewRepo.review == old(reviewRepo.review)[newId := reply.review]
        && reviewRepo.coachReview == old(reviewRepo.coachReview) + [Link(cmd.coachId, newId)]
      ensures !reply.Created? ==>
        reviewRepo.review == old(reviewRepo.review) && reviewRepo.coachReview == old(reviewRepo.coachReview)
    {
      calls := [GetUserById(cmd.userId)];
      var gate := Gate(UserService, user);
      if gate.Some? {
        return gate.value, calls;
      }

      calls := calls + [GetCoachById(cmd.coachId)];
      gate := Gate(CoachService, coach);
      if gate.Some? {
        return gate.value, calls;
      }

      var review := Review(newId, cmd.userId, cmd.body, updatedNow, createdNow);
      var err := reviewRepo.CreateCoachReview(review, cmd.coachId, faults);
      if err.Some? {
        return Failed(err.value), calls;
      }
      reply := Created(review);
    }

    /** Returns exactly the store's answer. */
    method GetReviewById(id: Uuid, fault: Option<DbFault>) returns (res: Result<Review>)
      requires reviewRepo.Valid()
      ensures fault.Some? ==> res == Err(Db(fault.value))
      ensures fault.None? && id !in reviewRepo.review ==> res == Err(Domain(ReviewNotFound))
      ensures res.Ok? <==> fault.None? && id in reviewRepo.review
      ensures res.Ok? ==> res.value == reviewRepo.review[id]
    {
      var review := reviewRepo.GetReviewById(id, fault);
      if review.Err? {
        return Err(review.error);
      }
      res := Ok(review.value);
    }

    /** Stamps `cmd.updatedTime` with `now`, writes the partial update, then
        returns the review as read back. A write error, a read error, or an
        id with no review (ReviewNotFound from the read) fails the call. */
    method UpdateReview(cmd: UpdateReviewCommand, now: Time, writeFault: Option<DbFault>, readFault: Option<DbFault>)
      returns (res: Result<Review>)
      requires reviewRepo.Valid()
      modifies reviewRepo, cmd
      ensures reviewRepo.Valid()
      ensures old(reviewRepo.Linked()) ==> reviewRepo.Linked()
      ensures cmd.updatedTime == now && cmd.id == old(cmd.id) && cmd.body == old(cmd.body)
      ensures reviewRepo.coachReview == old(reviewRepo.coachReview)
      ensures writeFault.Some? ==> res == Err(Db(writeFault.value)) && reviewRepo.review == old(reviewRepo.review)
      ensures writeFault.None? ==>
        reviewRepo.review == PatchTable(old(reviewRepo.review), cmd.id, cmd.body, now)
      ensures writeFault.None? && readFault.Some? ==> res == Err(Db(readFault.value))
      ensures writeFault.None? && readFault.None? && cmd.id !in old(reviewRepo.review) ==>
        res == Err(Domain(ReviewNotFound))
      ensures res.Ok? <==> writeFault.None? && readFault.None? && cmd.id in old(reviewRepo.review)
      ensures res.Ok? ==> res.value == Patch(old(reviewRepo.review)[cmd.id], cmd.body, now)
    {
      cmd.updatedTime := now;

      var err := reviewRepo.UpdateReview(cmd, writeFault);
      if err.Some? {
        return Err(err.value);
      }

      var review := reviewRepo.GetReviewById(cmd.id, readFault);
      if review.Err? {
        return Err(review.error);
      }
      res := Ok(review.value);
    }

    /** Reads the review, then deletes it, and returns what was read. A read
        failure (ReviewNotFound included) is returned before any delete; a
        delete failure is returned instead of the review. */
    method DeleteReviewById(id: Uuid, readFault: Option<DbFault>, deleteFault: Option<DbFault>)
      returns (res: Result<Review>)
      requires reviewRepo.Valid()
      modifies reviewRepo
      ensures reviewRepo.Valid()
      ensures old(reviewRepo.Linked()) ==> reviewRepo.Linked()
      ensures reviewRepo.coachReview == old(reviewRepo.coachReview)
      ensures readFault.Some? ==> res == Err(Db(readFault.value))
      ensures readFault.None? && id !in old(reviewRepo.review) ==> res == Err(Domain(ReviewNotFound))
      ensures readFault.None? && id in old(reviewRepo.review) && deleteFault.Some? ==>
        res == Err(Db(deleteFault.value))
      ensures res.Ok? <==> readFault.None? && id in old(reviewRepo.review) && deleteFault.None?
      ensures res.Ok? ==> res.value == old(reviewRepo.review)[id] && reviewRepo.review == old(reviewRepo.review) - {id}
      ensures !res.Ok? ==> reviewRepo.review == old(reviewRepo.review)
    {
      var review := reviewRepo.GetReviewById(id, readFault);
      if review.Err? {
        return Err(review.error);
      }

      var err := reviewRepo.DeleteReviewById(id, deleteFault);
      if err.Some? {
        return Err(err.value);
      }
      res := Ok(review.value);
    }

    /** Returns exactly the store's answer. */
    method GetCoachReviews(coachId: Uuid, fault: Option<DbFault>) returns (res: Result<seq<Review>>)
      requires reviewRepo.Valid()
      ensures fault.Some? ==> res == Err(Db(fault.value))
      ensures fault.None? ==> res == Ok(JoinOnReviewId(reviewRepo.review, reviewRepo.coachReview, coachId))
    {
      var reviews := reviewRepo.GetCoachReviews(coachId, fault);
      if reviews.Err? {
        return Err(reviews.error);
      }
      res := Ok(reviews.value);
    }

    /** Returns exactly the store's answer. */
    method GetCoachesReviews(ids: seq<Uuid>, fault: Option<DbFault>) returns (res: Result<map<Uuid, seq<Review>>>)
      requires reviewRepo.Valid()
      ensures ids == [] ==> res == Ok(map[])
      ensures ids != [] && fault.Some? ==> res == Err(Db(fault.value))
      ensures ids != [] && fault.None? ==> res == Ok(GroupRows(JoinRows(reviewRepo.review, reviewRepo.coachReview, ids)))
    {
      var reviews := reviewRepo.GetCoachesReviews(ids, fault);
      if reviews.Err? {
        return Err(reviews.error);
      }
      res := Ok(reviews.value);
    }
  }
}
