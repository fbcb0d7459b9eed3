/** The persisted records of the review service. */
module Models {

  /** A UUID, abstracted as a natural number (only equality is used). */
  type Uuid = nat

  /** A wall-clock reading, stored and read back exactly (the database's own
      timestamp resolution is not modelled). */
  type Time = int

  /** A row of the `review` table. */
  datatype Review = Review(
    id: Uuid,
    userId: Uuid,
    body: string,
    updatedTime: Time,
    createdTime: Time)

  /** A row of the `coach_review` link table. */
  datatype Link = Link(coachId: Uuid, reviewId: Uuid)
}
