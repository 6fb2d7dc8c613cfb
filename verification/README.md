# Daily reports of a care-center platform, modelled in Dafny

The report application of the platform lets a center's staff, an elder's guardian and the
elder's protectors exchange daily reports ("알림장") about an elder: a free-text content, an
optional health check of six coded fields, uploaded images and a thread of comments. Each
report and comment is pushed to the users related to the elder, with the first occurrence of
the requester taken out. The request fails after the row is saved when the requester is not
among them, or, for a report, when the body has no content. This project models the
application's view sets, serializers and schema:

- `types.dfy` — ids, `Option`/`Result`, and the failures the views raise.
- `schema.dfy` — the four tables as datatypes (`Report`, health values keyed by report,
  `Image` linked to a set of reports, `Comment`), the directory of users, centers and elders
  that the report rows point at, the default orderings as selectors over id-keyed maps, and
  the CASCADE deletes as functions on the tables.
- `recipients.dfy` — the list of users to notify (guardian user, center owner user, each
  protector user) and Python's `list.remove`, which takes out the first occurrence only
  and raises when the element is absent.
- `presentation.dfy` — what the Create* serializers accept (their field sets, validation,
  and the whitespace trimming of text fields) and how a report or comment is rendered for
  the requesting user (`is_mine`, `is_read`, the health section, the elder's name, the nested
  comments). Write-only fields (`read_people` of a report, `report` of a comment or image)
  are absent from the view datatypes.
- `store.dfy` — class `ReportStore`, holding the tables as maps with id counters, a
  monotonic clock for `created_at` and the log of pushes sent. Its methods are the view
  actions: listing, mark-read, batch create, destroy, comment create and destroy, and the
  cascades triggered by deleting a user, center or elder elsewhere. The batch create loop
  is specified by a forward-recursive function `RunBatch` over the tables it touches, and
  lemmas state what that function does to rows, health rows, pushes and the failure.

The store's invariant `Inv` (behind `ReportStore.Valid`) keeps referential integrity
(health rows, image links and comments point at existing reports), ids below their
counters, stored health codes drawn from the choice tables, and creation stamps that grow
with ids, so that id order is `created_at` order.

The directory of users, centers and elders is a parameter of the operations, not state: it
belongs to other applications. So are the display labels of health codes, used by the
renderers. The choice tables are `ReportStore.choices`, fixed when the store is built. The
contents of both live in a constants module that is not part of this model.

## Model

| member | source | states |
|---|---|---|
| Recipients.CollectRelated | viewsets.py:72-76 | the list built before removal is the guardian's user, the center's user, then every protector's user in order (the comment view builds the same list at viewsets.py:127-130) |
| Recipients.RemoveFirst | viewsets.py:77 | `remove` fails exactly when the requester is not in the list, and otherwise yields the list without its first occurrence |
| Recipients.FirstIndexSpec | viewsets.py:77 | the position `remove` takes out holds the requester and no earlier position does |
| Recipients.WithoutKeepsOrder | viewsets.py:131 | the result is one shorter; entries before the removed one keep their place, later ones move up by one |
| Recipients.WithoutMultiset | viewsets.py:77 | as a multiset the result is the list minus one copy of the requester |
| Recipients.RequesterStaysIffRepeated | viewsets.py:131 | the requester is still notified iff it occurred at least twice in the list |
| Recipients.OthersKept | viewsets.py:131 | every other user is notified exactly as often as it occurs in the list |
| Store.RelatedMembership | viewsets.py:72-77 | a user is related to the elder (the case `remove` succeeds on) exactly when it occurs in the list of related users |
| Store.CommentSerializerFor | viewsets.py:109-117 | the create serializer is used for the create action and only for it; every other action gets the output serializer |
| Store.ReportStore.MarkRead | viewsets.py:35-40 | the user named in the body joins the report's read set and nothing else changes; an unknown report is not found, an unknown user fails; success answers 200 |
| Schema.AddReaderIdempotent | models.py:13 | adding a reader twice is adding it once, adding a present reader changes nothing, and no other reader is added or removed |
| Store.ReportStore.List | viewsets.py:44-55 | no center parameter fails; otherwise the listing holds exactly the reports of the center visible to the requester (protector first, then guardian, then everyone), newest first |
| Store.ReportStore.ResolveElders | viewsets.py:61-63 | a guardian's target list is their single elder in the requested center, whatever the body says, and fails unless there is exactly one; anyone else's is the body's list, which must be present |
| Store.ReportStore.Create | viewsets.py:59-98 | target resolution failing changes nothing; otherwise the tables and push log become those of `RunBatch` over the targets, the returned ids are consecutive from the counter, one per target, and image rows (and the image counter) advance only when the whole batch succeeded, which answers 201 |
| Store.ReportStore.SaveBatch | viewsets.py:60-86 | the elder loop has exactly the effect and the failure of `RunBatch`, stops at the first failing elder, and returns one id per elder, in order, on success |
| Store.ReportStore.SaveForElder | viewsets.py:66-86 | one iteration has exactly the effect and outcome of `RunStep`: invalid input (an unknown author, center or elder, or a NUL in the content) saves nothing; a later failure leaves the saved report |
| Store.ReportStore.AddReport | viewsets.py:68-71 | the report is saved under the next id, stamped with the clock, with stripped content and an empty read set |
| Store.ReportStore.Notify | viewsets.py:72-86 | the push goes out unless the requester is not a recipient or the content key is missing; the health row is saved with the payload's values unless it is invalid |
| Store.ReportStore.AddHealth | viewsets.py:82-86 | a validated health payload becomes the report's only health row |
| Store.FirstFailure | viewsets.py:65-86 | the position of the first elder whose step fails: every earlier step succeeds |
| Store.BatchFailure | viewsets.py:65-86 | the batch fails with the error of the first failing elder's step, and the counter and clock advance once per saved report |
| Store.BatchReportIds | viewsets.py:65-71 | the report ids after the batch are the old ones plus one consecutive new id per saved report; a failing step does not roll back earlier ones |
| Store.BatchCompleteIds | viewsets.py:60-71 | a batch that completes has saved a report under each id from the counter on, one per elder |
| Store.BatchKeepsReports | viewsets.py:65-71 | rows that existed before the batch are left as they were |
| Store.BatchKeepsSaved | viewsets.py:65-71 | a row under an id below the counter is left as it was |
| Store.BatchReportRows | viewsets.py:65-71 | the k-th new report is about the k-th elder, with the payload's author, center and stripped content, unread, stamped `clock + k` |
| Store.BatchHealth | viewsets.py:81-86 | with no health payload no health row is added; with one, exactly the reports of the completed steps get a row with the payload's values; existing rows stay |
| Store.BatchPushCount | viewsets.py:72-79 | the push log is only appended to, with one push per step that reached the push call |
| Store.BatchPushRows | viewsets.py:72-79 | the k-th push of the batch goes to the k-th elder's related users minus one occurrence of the requester, with the content as sent and the k-th new report's id |
| Store.ReportStore.AddImage | viewsets.py:90-95 | one image row under the next id, linked to every listed report |
| Store.ReportStore.SaveBatchImages | viewsets.py:88-95 | the image rows are those of `SaveImages`: one per file, under consecutive ids |
| Store.SaveImagesRows | viewsets.py:88-95 | each file becomes one image row linked to all the batch's reports, existing rows stay, and no file means no row |
| Store.ReportStore.DestroyReport | viewsets.py:100-104 | an unknown id is not found and changes nothing; otherwise the tables become `DeleteReports` of that id and the answer is 200 |
| Store.ReportStore.AddComment | viewsets.py:120-122 | the comment is saved under the next id, stamped with the clock, with its message stripped |
| Store.ReportStore.NotifyComment | viewsets.py:123-132 | the comment push goes to the elder's related users minus one occurrence of the requester; a requester who is not related fails and nothing is sent |
| Store.ReportStore.CreateComment | viewsets.py:119-134 | invalid input (unknown author or report, blank message, a NUL in the message) saves nothing and leaves the counter and clock alone; otherwise the comment is saved, then a missing elder or an unrelated requester fails (the comment stays), else the push is logged and the answer is the comment rendered for the requester, with 201 |
| Store.ReportStore.DestroyComment | viewsets.py:136-139 | an unknown id is not found; otherwise exactly that comment goes and the answer is 204 |
| Presentation.RenderComment | serializers.py:59-63 | `is_mine` holds iff the comment's author is the requester; id, message, time and author are those of the row |
| Presentation.RenderReport | serializers.py:167-193 | `is_mine` iff the author is the requester, `is_read` iff the requester is in the read set, health absent iff there is no health row (else its rendering), the elder shown by name, images and comments those linked to the report |
| Presentation.RenderHealth | serializers.py:91-126 | the health section has exactly the six fields, each the label of the stored code, null where the column is null |
| Presentation.RenderComments | serializers.py:191-193 | one rendering per comment id, in the same order, each for the same requester |
| Presentation.NestedComments | serializers.py:191-193 | the k-th nested comment is the k-th comment of the report, rendered with its own `is_mine` |
| Presentation.ImagesOf | serializers.py:187-189 | the rendered images are exactly the image rows linked to the report |
| Presentation.IsReadAfterMarkRead | serializers.py:176-180 | after marking the report read for `u`, `is_read` holds iff the requester is `u` or it held before, and the rest of the rendering is unchanged |
| Presentation.StripSpec | serializers.py:196-204 | the stored text is the input with whitespace taken off both ends: empty iff the input is blank, otherwise starting and ending with a non-space character |
| Presentation.StripIdempotent | serializers.py:196-204 | trimming stored text again changes nothing |
| Presentation.CommentsOf | models.py:73 | a report's comments are exactly those pointing at it, in increasing id order |
| Presentation.CommentAppended | models.py:73 | a new comment comes last among its report's comments and leaves the other reports' comments unchanged |
| Store.ReportStore.CommentsOldestFirst | models.py:73 | a report's comments come in increasing `created_at` order |
| Schema.Ascending | models.py:73 | the selected ids, in increasing order, are exactly the keys whose row satisfies the filter |
| Schema.Descending | models.py:23 | the selected ids, in decreasing order, are exactly the keys whose row satisfies the filter |
| Schema.DeleteReports | models.py:29-64 | deleting reports takes their health rows and comments with them, while image rows stay and only lose the links; integrity is kept |
| Schema.DeleteUser | models.py:9-13 | deleting a user removes the reports they wrote (with cascades), their comments, and their read receipts; surviving reports keep their health rows, every image row stays with only the deleted reports' links removed, and integrity is kept |
| Schema.DeleteCenter | models.py:10 | deleting a center removes exactly the reports filed under it, with their cascades; the other reports keep their rows, health rows and comments, every image row stays with only the deleted reports' links removed, and integrity is kept |
| Schema.DeleteElder | models.py:11 | deleting an elder removes exactly the reports about them, with their cascades; the other reports keep their rows, health rows and comments, every image row stays with only the deleted reports' links removed, and integrity is kept |
| Store.ReportStore.OnUserDeleted | models.py:9 | the store's tables become `DeleteUser` of the old ones and the invariant holds |
| Store.ReportStore.OnCenterDeleted | models.py:10 | the store's tables become `DeleteCenter` of the old ones and the invariant holds |
| Store.ReportStore.OnElderDeleted | models.py:11 | the store's tables become `DeleteElder` of the old ones and the invariant holds |

## Left out

- Pagination of the listing is not modelled. That includes the fallback at viewsets.py:56, which serializes the whole unfiltered queryset when the paginator produces no page. Whether that path is reachable depends on `ReportPagination`, which is not part of this model, so `List` makes no claim about it.
- The generic `self.update` path of a partial update without `read_people` (viewsets.py:42) is framework behaviour.
- The push gateway is a foreign network call. It is modelled only as the log `sent` of (recipients, title, body, deep-link kind, id) tuples; delivery is not modelled.
- Base64 decoding of images and the renaming of uploaded files are storage concerns. An image file is an opaque string that always decodes. So the model does not capture a file that fails to decode: at viewsets.py:94 that raises after the batch's reports, pushes and earlier image rows are saved, while `Create` answers `Ok` whenever the elder loop completes.
- The display labels of health codes are a parameter of the renderers, and the choice tables are fixed when the store is built. Their contents live in a constants module that is not part of this model.
- Authentication and permissions, HTTP headers and the `print` calls are not modelled. The authenticated requester is assumed to have an account, and `List`, `ResolveElders` and `Create` require that the account flags they are given are that account's.
- The author of a report or comment is rendered by id only (`ReportView.user`, `CommentView.user`). The code nests a small user record there, `{id, image, type}` for a report (serializers.py:131-139) and `{id, type}` for a comment (serializers.py:35-44); users belong to another application, so their image and type are not part of this model.
- Error responses are not modelled beyond the `Error` value: `Create` and `CreateComment` return the 201 status only on success.
- ORM query mechanics are not modelled: `select_related`, `prefetch_related`, and the filter backends that `get_object` may apply. A lookup either finds its row or fails.
- Presentation.RenderReport: the images of a rendered report are a set (`ReportView.images`), while the code emits a list in query order, and `ReportImage` declares no default ordering (models.py:54-56); that order is not modelled.
- `updated_at` stamps and the newest-first ordering of health rows by `updated_at` are not modelled. Health rows are keyed by their report, so that ordering is never observable through a report.
- Actual timestamps are not modelled. `created_at` is the value of a monotonic counter, shared by reports and comments.
- Store.ReportStore.Create: a JSON `null` content is treated like an absent content key, so the step fails with `MissingContent` after saving the report. In the code a null content does not raise at viewsets.py:79: the push goes out with a null body, the health row is saved and the loop goes on to the next elder. Only the absent key is modelled faithfully.
- A missing `center` key is not modelled: it raises at viewsets.py:62 for a guardian and fails validation at viewsets.py:69 otherwise. The payload's `center` is always present.
- Cascades into tables outside the report application are not modelled. Neither are deletions of accounts, centers or elders themselves: only their effect on the report tables is.
- Store.ReportStore.List: the guardian and protector relations are derived from each elder's `guardianUser` and `protectorUsers`. The account application's own relation tables are not part of this model.
- Store.ReportStore.Create: no transaction is used, and none is modelled. A failure mid-batch leaves the earlier rows and pushes in place, as the code does, and the image loop runs only after every elder succeeded.
- Store.ReportStore.MarkRead: a body `read_people` value that is not a single user id (for example a list) is not modelled.
