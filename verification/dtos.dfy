/** The commands the service layer receives. */
module Dtos {
  import opened Models

  /** Create a review by `userId` about coach `coachId`. */
  datatype CreateReviewCommand = CreateReviewCommand(userId: Uuid, body: string, coachId: Uuid)

  /** Update review `id`; an empty `body` means "keep the body". The service
      layer overwrites `updatedTime` in place before handing the command on. */
  class UpdateReviewCommand {
    var id: Uuid
    var body: string
    var updatedTime: Time

    constructor (id: Uuid, body: string, updatedTime: Time)
      ensures this.id == id && this.body == body && this.updatedTime == updatedTime
    {
      this.id := id;
      this.body := body;
      this.updatedTime := updatedTime;
    }
  }
}
