/** Identifiers, the Option/Result wrappers and the failures the report views raise. */
module Types {

  // Users, centers and elders live in other applications of the platform; the report
  // application refers to them only by primary key.
  type UserId = nat
  type CenterId = nat
  type ElderId = nat
  type ReportId = nat
  type CommentId = nat
  type ImageId = nat

  datatype Option<T> = None | Some(value: T)

  /** Why a request failed. Every one of these aborts the request at the point where
      it is raised; rows saved before that point stay saved (no transaction). */
  datatype Error =
    | MissingCenterParam    // `request.GET['center']` absent on listing
    | MissingElders         // `request.data['elders']` absent on create (non-guardian)
    | GuardianElderLookup   // `guardian.elders.get(center=...)` found no elder, or several
    | InvalidReport         // CreateReportSerializer rejected the input
    | NotRecipient          // `related_people.remove(request.user)`: requester not in the list
    | MissingContent        // `request.data['content']` absent when building the push
    | InvalidHealth         // CreateReportHealthSerializer rejected the health payload
    | InvalidComment        // CreateCommentSerializer rejected the input
    | ElderMissing          // `Elder.objects.get(id=...)` found no elder
    | NotFound              // `get_object()` found no row with that id
    | UnknownUser           // `read_people.add(pk)` with a pk that names no user

  datatype Result<T> = Ok(value: T) | Err(error: Error)

  // The HTTP status codes the views answer with on success.
  const HttpOk: nat := 200
  const HttpCreated: nat := 201
  const HttpNoContent: nat := 204
}
