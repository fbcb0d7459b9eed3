# Review service: store and use case

A Dafny model of the review core of the FitnessCenter review service. Users
leave reviews about coaches. The model has two layers.

- **The PostgreSQL review store** (`Postgres.ReviewRepository`). It holds two
  tables, changed in place. `review` maps a review id to its row.
  `coach_review` is a sequence of (coach id, review id) link rows. Creation
  inserts both rows in one transaction that either commits or leaves both
  tables unchanged. The partial update builds an `UPDATE "review" SET …`
  statement in a loop, with numbered placeholders. Its meaning is defined in
  `UpdateQuery`. The bulk query groups joined rows by coach in a loop. Its
  meaning is defined in `Grouping`.
- **The use case** (`ReviewUsecase.ReviewUseCase`). It checks the user first
  and then the coach, using their remote services. It maps a failed check to
  the sentinel errors (`Errors`), builds the review and writes it. It stamps
  and re-reads on update, and reads before delete. The getters delegate to
  the store.

Inputs that come from outside are parameters:
- the remote services' answers (`Found`, `StatusErr(code)` or `NonStatusErr`);
- the generated UUID;
- the clock readings;
- each statement's driver failure (`Option<DbFault>`, or `TxFaults` for the
  create transaction's four steps).

The model assumes that `id` is the key of the `review` table; no schema
fixes this. Under that assumption a duplicate review id makes the review
insert fail with `UniqueViolation`, so a non-fresh id fails the transaction
instead of overwriting a row.

Where the code behaves differently from what its names suggest, the model
follows the code:
- The single-coach query filters on `coach_review.review_id = $1`. It returns
  copies of the review whose id equals the argument, one per link row naming
  that review. It does not return the coach's reviews
  (`Grouping.JoinOnReviewIdCopies`).
- A remote check error that carries no gRPC status makes creation return
  neither a review nor an error (`Reply.NoReply`). It is not propagated as an
  error.
- Store failures are the driver's errors. Read, update and delete failures are
  returned unchanged (`Db`). Creation wraps each failure with the step that
  failed (`Tx`). There is no single persistence-error kind.
- The SET list follows the iteration order of a Go map, which is not fixed.
  The model picks the columns in any order. It proves that every order
  numbers the placeholders $1..$k and has the same effect.
- Deleting a review leaves its link rows in place. No cascade is assumed.
- `updatedTime` and `createdTime` come from two separate clock readings,
  `updatedTime` first. They are not assumed equal.
- Query results carry no ordering clause.
- `ReviewNotFound` has the message "coach not found", the same as
  `CoachNotFound`. It is still a different value (`Errors.SharedMessage`).

## Model

| member | source | states |
|---|---|---|
| `Errors.SharedMessage` | internal/errors/errors.go:5-16 | two sentinels have the same message exactly when they are equal or are CoachNotFound and ReviewNotFound |
| `UpdateQuery.SetAllSetsColumns` | internal/repository/postgres/review.go:101-117 | a SET list whose every placeholder is bound to the command's value for its column sets exactly those columns, whatever the order |
| `UpdateQuery.StatementPatches` | internal/repository/postgres/review.go:101-117 | a statement numbered $1..$k, with the command's values, covering body-if-non-empty and updated_time once each, and with the id as $(k+1), is well formed (no column set twice, every placeholder bound); executing it on any table patches only the row with that id |
| `UpdateQuery.NumberFields` | internal/repository/postgres/review.go:101-113 | the SET-list loop: the i-th assignment uses placeholder $i, is bound to the map's value for its column, covers every map key and sets no column twice |
| `UpdateQuery.BuildUpdate` | internal/repository/postgres/review.go:88-115 | the statement always exists, so the "no fields" return is unreachable; k = 1 or 2 SET fields get $1..$k; the id is $(k+1) and the last of k+1 parameters; executing it on any table equals the intended partial update |
| `Grouping.GroupRowsByCoach` | internal/repository/postgres/review.go:181-192 | grouping gives a coach a list exactly when some row is for it, and that list is the coach's rows in row order |
| `Grouping.JoinRowsOfCoach` | internal/repository/postgres/review.go:158-176 | one coach's rows of the bulk join are that coach's linked reviews in link order when the coach was requested, and none otherwise |
| `Grouping.GroupedKeys` | internal/repository/postgres/review.go:158-194 | a coach is a key of the grouped bulk join iff it was requested and has a linked review; its list is its linked reviews |
| `Grouping.GroupRowsSize` | internal/repository/postgres/review.go:181-194 | the grouped lists together hold exactly as many reviews as there are rows |
| `Grouping.JoinOnReviewIdCopies` | internal/repository/postgres/review.go:137-149 | the review-id filtered join returns only the review whose id is the argument, once per link row naming it, and nothing when that review does not exist |
| `Postgres.ReviewRepository.constructor` | internal/repository/postgres/review.go:22-24 | the store wraps an existing database: its tables are the given ones, whatever rows they already hold, each review stored under its own id |
| `Postgres.ReviewRepository.CreateCoachReview` | internal/repository/postgres/review.go:26-70 | with no failure, adds the review row under its id and appends one (coachId, id) link; otherwise returns the first failing step's wrapped error and leaves both tables unchanged; keeps every review linked |
| `Postgres.ReviewRepository.GetReviewById` | internal/repository/postgres/review.go:72-86 | returns the stored row for a present id; ReviewNotFound for an absent one; any other read failure unchanged |
| `Postgres.ReviewRepository.UpdateReview` | internal/repository/postgres/review.go:88-124 | sets updated_time, and body only when non-empty, on the row with the id; id, user and creation time are kept; an absent id changes nothing and is no error; links untouched; a write failure is returned and changes nothing |
| `Postgres.ReviewRepository.DeleteReviewById` | internal/repository/postgres/review.go:126-135 | removes the row with the id, is a silent no-op for an absent id, never touches the link table, and changes nothing on failure |
| `Postgres.ReviewRepository.GetCoachReviews` | internal/repository/postgres/review.go:137-149 | returns the review-id filtered join: copies of the review with the argument's id, one per link naming it; a read failure is returned |
| `Postgres.ReviewRepository.GetCoachesReviews` | internal/repository/postgres/review.go:151-195 | empty ids give an empty map without querying; otherwise keys are requested coaches with non-empty lists equal to their linked reviews in link order; coaches without reviews are absent; list lengths sum to the joined row count |
| `ReviewUsecase.Classify` | internal/usecase/review_usecase/review_usecase.go:47-70 | status NotFound maps to the service's not-found error and every other code to its internal-server error |
| `ReviewUsecase.Gate` | internal/usecase/review_usecase/review_usecase.go:37-71 | a check lets creation go on exactly when the entity was found; a status error stops it with the classified error; a non-status error stops it with neither review nor error |
| `ReviewUsecase.ReviewUseCase.constructor` | internal/usecase/review_usecase/review_usecase.go:23-33 | the use case is bound to the given store |
| `ReviewUsecase.ReviewUseCase.CreateCoachReview` | internal/usecase/review_usecase/review_usecase.go:35-87 | the user is asked first and the coach only if the user passed; a failed check decides the reply and leaves the store untouched; when both pass, the reply is the stored review (fresh id, cmd user and body, the two clock readings) or the transaction's error, with nothing stored |
| `ReviewUsecase.ReviewUseCase.GetReviewById` | internal/usecase/review_usecase/review_usecase.go:89-96 | returns the store's review or its error (ReviewNotFound for an absent id) |
| `ReviewUsecase.ReviewUseCase.UpdateReview` | internal/usecase/review_usecase/review_usecase.go:98-113 | stamps cmd.updatedTime with now, applies the partial update, and returns the patched review as read back; a write error, a read error or an absent id (ReviewNotFound) fails it |
| `ReviewUsecase.ReviewUseCase.DeleteReviewById` | internal/usecase/review_usecase/review_usecase.go:115-128 | a failed read returns its error with no delete; otherwise a successful delete returns the pre-deletion review and removes its row; a delete failure is returned and nothing changes |
| `ReviewUsecase.ReviewUseCase.GetCoachReviews` | internal/usecase/review_usecase/review_usecase.go:130-137 | returns exactly the store's single-coach result or its error |
| `ReviewUsecase.ReviewUseCase.GetCoachesReviews` | internal/usecase/review_usecase/review_usecase.go:139-146 | returns exactly the store's grouped result (an empty map for no ids) or its error |

## Left out

- SQL text: the statement is modelled as structure (SET list, placeholder numbers, parameters). The string it renders to is not modelled.
- The sqlx and pq drivers, transaction isolation and the connection pool: tables are in memory. Each driver failure is an input.
- The order in which the database returns joined rows: the model takes link-table order. The grouping lemmas hold for any row sequence.
- The remote user and coach clients: their answers are inputs. A `calls` out-parameter records which services were asked.
- `time.Now()` and `uuid.New()`: both are inputs. UUIDs are natural numbers and times are integers.
- Timestamp storage resolution: a Go clock reading has nanosecond resolution, and a PostgreSQL date/time column keeps at most microseconds. The table schema is not part of this model, so the column's type and its rounding are unknown. The model stores each clock reading exactly. A review read back from the database therefore equals the written one only up to that rounding.
- `ReviewUsecase.ReviewUseCase.UpdateReview`: its result carries `now` exactly. The program returns the row as read back, so its `updatedTime` is `now` rounded to the column's resolution.
- `ReviewUsecase.ReviewUseCase.CreateCoachReview`: the `Created` reply carries the two clock readings exactly, as the program returns them. A later `GetReviewById` of the same review returns them rounded to the column's resolution. The model's store keeps them exact.
- Context cancellation, concurrency and logging.
- Pointer identity: the `*models.Review` results and the reviews in the returned slices and maps are values.
- The transport adapter (`internal/delivery/grpc/user_methods.go`), with its ReviewNotFound to `codes.NotFound` mapping, is not part of this model. The same holds for the server and process bootstrap (`internal/server/app.go`, `cmd/main.go`).
- Error message texts of wrapped and driver errors: only the sentinel messages are modelled. A wrapped error records the failing step, not the context text placed in front of it.
