/** The report and comment views: an in-memory store of the report application's tables,
    with the operations the two view sets perform on it. The push gateway is modelled by
    the log of calls made to it. */
module Store {
  import opened Types
  import opened Schema
  import opened Recipients
  import opened Presentation

  /** One call to the push gateway: recipients, title, body, deep-link kind and id. */
  datatype Push = Push(recipients: seq<UserId>, title: string, body: string, kind: string, link: nat)

  const ReportTitle: string := "글이 작성되었어요^^"
  const CommentTitle: string := "댓글이 작성되었어요^^"
  const DeepLink: string := "notedetail"

  /** The body of a create-report request. `elders` is `None` when the key is absent;
      `health` is `None` when absent or an empty object; an absent `images` is `[]`. */
  datatype ReportPayload = ReportPayload(
    user: UserId, center: CenterId, elders: Option<seq<ElderId>>, content: Option<string>,
    health: Option<HealthValues>, images: seq<ImageFile>)

  // ---------------------------------------------------------------- comment serializer choice

  datatype Action = ListAction | RetrieveAction | CreateAction | UpdateAction | PartialUpdateAction | DestroyAction

  datatype CommentSchema = CreateCommentSchema | CommentOutputSchema

  /** `CommentViewSet.get_serializer_class`: the per-action table, with the output
      serializer as the default. */
  function CommentSerializerFor(a: Action): (s: CommentSchema)
    ensures s == CreateCommentSchema <==> a == CreateAction
  {
    var table := map[CreateAction := CreateCommentSchema];
    if a in table then table[a] else CommentOutputSchema
  }

  // ---------------------------------------------------------------- listing filter

  /** Whether a report is listed for the requester in `center`: a protector sees the
      reports of the elders they protect, a guardian (when not also a protector) those of
      the elders they are guardian of, anyone else every report of the center. */
  predicate Visible(dir: Directory, requester: UserId, acct: Account, center: CenterId, r: Report)
  {
    && r.center == center
    && if acct.isProtector then r.elder in dir.elders && requester in dir.elders[r.elder].protectorUsers
       else if acct.isGuardian then r.elder in dir.elders && dir.elders[r.elder].guardianUser == requester
       else true
  }

  // ---------------------------------------------------------------- batch create, specified

  /** The elders of guardian user `u` in center `c`. */
  function GuardianEldersIn(dir: Directory, u: UserId, c: CenterId): set<ElderId>
  {
    set e | e in dir.elders && dir.elders[e].guardianUser == u && dir.elders[e].center == c
  }

  /** The users to notify about a report or comment on elder `e`, before removing the requester. */
  function RelatedTo(dir: Directory, e: ElderId): seq<UserId>
    requires DirectoryWellFormed(dir) && e in dir.elders
  {
    Related(dir.elders[e], dir.centerOwners[dir.elders[e].center])
  }

  /** Whether `u` is among the users related to elder `e`, one case per part of the
      list (see RelatedMembership). */
  predicate IsRelated(dir: Directory, e: ElderId, u: UserId)
    requires DirectoryWellFormed(dir) && e in dir.elders
  {
    var info := dir.elders[e];
    u == info.guardianUser || u == dir.centerOwners[info.center] || u in info.protectorUsers
  }

  /** IsRelated is membership in the list of related users. */
  lemma RelatedMembership(dir: Directory, e: ElderId, u: UserId)
    requires DirectoryWellFormed(dir) && e in dir.elders
    ensures IsRelated(dir, e, u) <==> u in RelatedTo(dir, e)
  {
    var info := dir.elders[e];
    var people := RelatedTo(dir, e);
    assert people[0] == info.guardianUser && people[1] == dir.centerOwners[info.center];
    assert people[2..] == info.protectorUsers;
    if u in info.protectorUsers {
      var k :| 0 <= k < |info.protectorUsers| && info.protectorUsers[k] == u;
      assert people[k + 2] == u;
    }
  }

  function InputFor(payload: ReportPayload, e: ElderId): ReportInput
  {
    ReportInput(payload.user, payload.center, e, payload.content)
  }

  /** Where the per-elder step of `create` stops for elder `e`, if it does: the report
      input is checked, the report saved, the requester removed from the recipients, the
      content read for the push, then the health payload checked and saved. */
  function StepFailure(dir: Directory, ch: Choices, requester: UserId, payload: ReportPayload, e: ElderId): Option<Error>
    requires DirectoryWellFormed(dir)
  {
    if !ReportInputValid(dir, InputFor(payload, e)) then Some(InvalidReport)
    else if !IsRelated(dir, e, requester) then Some(NotRecipient)
    else if payload.content.None? then Some(MissingContent)
    else if payload.health.Some? && !HealthValid(ch, payload.health.value) then Some(InvalidHealth)
    else None
  }

  /** The step saved the report (it failed, if at all, after `serializer.save()`). */
  predicate StepSaves(dir: Directory, ch: Choices, requester: UserId, payload: ReportPayload, e: ElderId)
    requires DirectoryWellFormed(dir)
  {
    StepFailure(dir, ch, requester, payload, e) != Some(InvalidReport)
  }

  /** The step reached the push gateway. */
  predicate StepNotifies(dir: Directory, ch: Choices, requester: UserId, payload: ReportPayload, e: ElderId)
    requires DirectoryWellFormed(dir)
  {
    var f := StepFailure(dir, ch, requester, payload, e);
    f.None? || f == Some(InvalidHealth)
  }

  /** The position of the first elder whose step fails, or the length of the list. */
  function FirstFailure(dir: Directory, ch: Choices, requester: UserId, payload: ReportPayload, targets: seq<ElderId>): (m: nat)
    requires DirectoryWellFormed(dir)
    ensures m <= |targets|
    ensures forall k :: 0 <= k < m ==> StepFailure(dir, ch, requester, payload, targets[k]).None?
    ensures m < |targets| ==> StepFailure(dir, ch, requester, payload, targets[m]).Some?
  {
    if targets == [] then 0
    else if StepFailure(dir, ch, requester, payload, targets[0]).Some? then 0
    else 1 + FirstFailure(dir, ch, requester, payload, targets[1..])
  }

  /** The push sent for the report with id `id` about elder `e`: everyone related to the
      elder except one occurrence of the requester, with the content as sent (not stripped). */
  function ReportPush(dir: Directory, ch: Choices, requester: UserId, payload: ReportPayload, e: ElderId, id: ReportId): Push
    requires DirectoryWellFormed(dir) && StepNotifies(dir, ch, requester, payload, e)
  {
    Push(Without(RelatedTo(dir, e), requester), ReportTitle, payload.content.value, DeepLink, id)
  }

  /** The push sent for a new comment on a report about elder `e`: the message as sent,
      linking to the report named in the request. */
  function CommentPush(dir: Directory, requester: UserId, input: CommentInput, e: ElderId): Push
    requires DirectoryWellFormed(dir) && e in dir.elders && IsRelated(dir, e, requester)
  {
    Push(Without(RelatedTo(dir, e), requester), CommentTitle, input.message, DeepLink, input.report)
  }

  /** How many reports a batch that stops at elder `m` has saved. */
  function SavedCount(dir: Directory, ch: Choices, requester: UserId, payload: ReportPayload, targets: seq<ElderId>, m: nat): nat
    requires DirectoryWellFormed(dir) && m <= |targets|
  {
    if m < |targets| && StepSaves(dir, ch, requester, payload, targets[m]) then m + 1 else m
  }

  /** How many pushes a batch that stops at elder `m` has sent. */
  function NotifiedCount(dir: Directory, ch: Choices, requester: UserId, payload: ReportPayload, targets: seq<ElderId>, m: nat): nat
    requires DirectoryWellFormed(dir) && m <= |targets|
  {
    if m < |targets| && StepNotifies(dir, ch, requester, payload, targets[m]) then m + 1 else m
  }

  /** The tables the create loop writes to, and the push log. */
  datatype Tables = Tables(
    reports: map<ReportId, Report>, health: map<ReportId, HealthValues>, sent: seq<Push>,
    nextReport: nat, clock: nat)

  /** No row uses an id that the report counter has yet to hand out. */
  ghost predicate Fresh(t: Tables)
  {
    forall id :: id in t.reports || id in t.health ==> id < t.nextReport
  }

  /** The tables after a step, and why the step stopped the request, if it did. */
  datatype Outcome = Outcome(tables: Tables, failure: Option<Error>)

  /** `serializer.save()` of the report: the next id, stamped with the clock. */
  function SaveRow(t: Tables, payload: ReportPayload, e: ElderId): Tables
  {
    t.(reports := t.reports[t.nextReport := NewReport(InputFor(payload, e), t.clock)],
       nextReport := t.nextReport + 1, clock := t.clock + 1)
  }

  /** One iteration of the create loop for elder `e`: the report is saved unless its
      input is refused, the push is sent unless the requester is not a recipient or the
      content is missing, and the health row is saved when the whole step succeeds. */
  function RunStep(dir: Directory, ch: Choices, requester: UserId, payload: ReportPayload, e: ElderId, t: Tables): Outcome
    requires DirectoryWellFormed(dir)
  {
    var saved := if StepSaves(dir, ch, requester, payload, e) then SaveRow(t, payload, e) else t;
    var pushed := if StepNotifies(dir, ch, requester, payload, e)
                  then saved.(sent := saved.sent + [ReportPush(dir, ch, requester, payload, e, t.nextReport)])
                  else saved;
    var f := StepFailure(dir, ch, requester, payload, e);
    Outcome(if f.None? && payload.health.Some? then pushed.(health := pushed.health[t.nextReport := payload.health.value]) else pushed, f)
  }

  /** The create loop over `elders`, stopping at the first failing step. */
  function RunBatch(dir: Directory, ch: Choices, requester: UserId, payload: ReportPayload, elders: seq<ElderId>, t: Tables): Outcome
    requires DirectoryWellFormed(dir)
    decreases |elders|
  {
    if elders == [] then Outcome(t, None)
    else
      var o := RunStep(dir, ch, requester, payload, elders[0], t);
      if o.failure.Some? then o else RunBatch(dir, ch, requester, payload, elders[1..], o.tables)
  }

  /** The batch fails exactly at the first elder whose step fails, with that step's error;
      the report counter and the clock advance once per saved report. */
  lemma {:induction false} BatchFailure(dir: Directory, ch: Choices, requester: UserId, payload: ReportPayload, elders: seq<ElderId>, t: Tables)
    requires DirectoryWellFormed(dir)
    ensures var o := RunBatch(dir, ch, requester, payload, elders, t);
            var m := FirstFailure(dir, ch, requester, payload, elders);
            && o.failure == (if m == |elders| then None else StepFailure(dir, ch, requester, payload, elders[m]))
            && o.tables.nextReport == t.nextReport + SavedCount(dir, ch, requester, payload, elders, m)
            && o.tables.clock == t.clock + SavedCount(dir, ch, requester, payload, elders, m)
  {
    if elders != [] {
      var o := RunStep(dir, ch, requester, payload, elders[0], t);
      if o.failure.None? {
        BatchFailure(dir, ch, requester, payload, elders[1..], o.tables);
        assert elders[1..][FirstFailure(dir, ch, requester, payload, elders[1..])..] == elders[1 + FirstFailure(dir, ch, requester, payload, elders[1..])..];
      }
    }
  }

  /** The report ids of a batch: the old ones and one new id per saved report, handed
      out consecutively from the counter. Nothing is rolled back: a step that fails after
      saving leaves its report. */
  lemma {:induction false} BatchReportIds(dir: Directory, ch: Choices, requester: UserId, payload: ReportPayload, elders: seq<ElderId>, t: Tables)
    requires DirectoryWellFormed(dir)
    ensures var o := RunBatch(dir, ch, requester, payload, elders, t);
            var n := SavedCount(dir, ch, requester, payload, elders, FirstFailure(dir, ch, requester, payload, elders));
            forall id :: id in o.tables.reports <==> id in t.reports || t.nextReport <= id < t.nextReport + n
  {
    if elders != [] {
      var o := RunStep(dir, ch, requester, payload, elders[0], t);
      if o.failure.Some? {
        assert RunBatch(dir, ch, requester, payload, elders, t) == o;
        assert FirstFailure(dir, ch, requester, payload, elders) == 0;
      } else {
        var rest := elders[1..];
        BatchReportIds(dir, ch, requester, payload, rest, o.tables);
        assert RunBatch(dir, ch, requester, payload, elders, t) == RunBatch(dir, ch, requester, payload, rest, o.tables);
        assert o.tables.reports.Keys == t.reports.Keys + {t.nextReport} && o.tables.nextReport == t.nextReport + 1;
        var m := FirstFailure(dir, ch, requester, payload, rest);
        assert FirstFailure(dir, ch, requester, payload, elders) == m + 1;
        assert m < |rest| ==> elders[m + 1] == rest[m];
        assert SavedCount(dir, ch, requester, payload, elders, m + 1) == SavedCount(dir, ch, requester, payload, rest, m) + 1;
      }
    }
  }

  /** A batch that completes has saved a report under each of the ids it hands back. */
  lemma {:induction false} BatchCompleteIds(dir: Directory, ch: Choices, requester: UserId, payload: ReportPayload, elders: seq<ElderId>, t: Tables)
    requires DirectoryWellFormed(dir)
    requires RunBatch(dir, ch, requester, payload, elders, t).failure.None?
    ensures forall id :: t.nextReport <= id < t.nextReport + |elders| ==> id in RunBatch(dir, ch, requester, payload, elders, t).tables.reports
  {
    BatchFailure(dir, ch, requester, payload, elders, t);
    BatchReportIds(dir, ch, requester, payload, elders, t);
  }

  /** A batch never overwrites a report row that was already there. */
  lemma {:induction false} BatchKeepsReports(dir: Directory, ch: Choices, requester: UserId, payload: ReportPayload, elders: seq<ElderId>, t: Tables)
    requires DirectoryWellFormed(dir) && Fresh(t)
    ensures var o := RunBatch(dir, ch, requester, payload, elders, t);
            forall id :: id in t.reports ==> id in o.tables.reports && o.tables.reports[id] == t.reports[id]
  {
    if elders != [] {
      var o := RunStep(dir, ch, requester, payload, elders[0], t);
      if o.failure.None? {
        BatchKeepsReports(dir, ch, requester, payload, elders[1..], o.tables);
      }
    }
  }

  /** The k-th report a batch saves gets id `nextReport + k`, is about the k-th elder,
      carries the payload's author, center and stripped content, has been read by nobody,
      and is stamped `clock + k`. */
  lemma {:induction false} BatchReportRows(dir: Directory, ch: Choices, requester: UserId, payload: ReportPayload, elders: seq<ElderId>, t: Tables)
    requires DirectoryWellFormed(dir)
    ensures SavedCount(dir, ch, requester, payload, elders, FirstFailure(dir, ch, requester, payload, elders)) <= |elders|
    ensures var o := RunBatch(dir, ch, requester, payload, elders, t);
            var n := SavedCount(dir, ch, requester, payload, elders, FirstFailure(dir, ch, requester, payload, elders));
            forall id :: t.nextReport <= id < t.nextReport + n ==>
              && id in o.tables.reports
              && o.tables.reports[id] == NewReport(InputFor(payload, elders[id - t.nextReport]), t.clock + (id - t.nextReport))
  {
    var n := SavedCount(dir, ch, requester, payload, elders, FirstFailure(dir, ch, requester, payload, elders));
    forall id | t.nextReport <= id < t.nextReport + n
      ensures id - t.nextReport < |elders|
      ensures var o := RunBatch(dir, ch, requester, payload, elders, t);
              && id in o.tables.reports
              && o.tables.reports[id] == NewReport(InputFor(payload, elders[id - t.nextReport]), t.clock + (id - t.nextReport))
    {
      BatchReportAt(dir, ch, requester, payload, elders, t, id);
    }
  }

  /** The row under one id of BatchReportRows, by induction on the elders. */
  lemma {:induction false} BatchReportAt(dir: Directory, ch: Choices, requester: UserId, payload: ReportPayload, elders: seq<ElderId>, t: Tables, id: ReportId)
    requires DirectoryWellFormed(dir)
    requires t.nextReport <= id < t.nextReport + SavedCount(dir, ch, requester, payload, elders, FirstFailure(dir, ch, requester, payload, elders))
    ensures id - t.nextReport < |elders|
    ensures var o := RunBatch(dir, ch, requester, payload, elders, t);
            && id in o.tables.reports
            && o.tables.reports[id] == NewReport(InputFor(payload, elders[id - t.nextReport]), t.clock + (id - t.nextReport))
  {
    var o := RunStep(dir, ch, requester, payload, elders[0], t);
    if o.failure.Some? {
      assert RunBatch(dir, ch, requester, payload, elders, t) == o;
      assert FirstFailure(dir, ch, requester, payload, elders) == 0;
    } else {
      var rest := elders[1..];
      var m := FirstFailure(dir, ch, requester, payload, rest);
      assert FirstFailure(dir, ch, requester, payload, elders) == m + 1;
      assert m < |rest| ==> elders[m + 1] == rest[m];
      assert SavedCount(dir, ch, requester, payload, elders, m + 1) == SavedCount(dir, ch, requester, payload, rest, m) + 1;
      if id == t.nextReport {
        BatchKeepsSaved(dir, ch, requester, payload, rest, o.tables, id);
      } else {
        BatchReportAt(dir, ch, requester, payload, rest, o.tables, id);
        assert elders[id - t.nextReport] == rest[id - t.nextReport - 1];
      }
    }
  }

  /** A report row the batch finds under an id below the counter stays as it is. */
  lemma {:induction false} BatchKeepsSaved(dir: Directory, ch: Choices, requester: UserId, payload: ReportPayload, elders: seq<ElderId>, t: Tables, id: ReportId)
    requires DirectoryWellFormed(dir) && id in t.reports && id < t.nextReport
    ensures var o := RunBatch(dir, ch, requester, payload, elders, t);
            id in o.tables.reports && o.tables.reports[id] == t.reports[id]
  {
    if elders != [] {
      var o := RunStep(dir, ch, requester, payload, elders[0], t);
      if o.failure.None? {
        BatchKeepsSaved(dir, ch, requester, payload, elders[1..], o.tables, id);
      }
    }
  }

  /** The health rows of a batch: with a health object, every report of a step that
      completed gets one with exactly the payload's values; rows already there are kept. */
  lemma {:induction false} BatchHealth(dir: Directory, ch: Choices, requester: UserId, payload: ReportPayload, elders: seq<ElderId>, t: Tables)
    requires DirectoryWellFormed(dir) && Fresh(t)
    ensures var o := RunBatch(dir, ch, requester, payload, elders, t);
            var m := FirstFailure(dir, ch, requester, payload, elders);
            && (payload.health.None? ==> o.tables.health == t.health)
            && (payload.health.Some? ==> forall id :: id in o.tables.health <==> id in t.health || t.nextReport <= id < t.nextReport + m)
            && (forall id :: id in t.health ==> o.tables.health[id] == t.health[id])
            && (payload.health.Some? ==> forall id :: t.nextReport <= id < t.nextReport + m ==> o.tables.health[id] == payload.health.value)
  {
    if elders != [] {
      var o := RunStep(dir, ch, requester, payload, elders[0], t);
      if o.failure.None? {
        BatchHealth(dir, ch, requester, payload, elders[1..], o.tables);
      }
    }
  }

  /** A batch only appends to the push log: one push per step that got as far as the
      push, so a failing step that saved its report may still have notified. */
  lemma {:induction false} BatchPushCount(dir: Directory, ch: Choices, requester: UserId, payload: ReportPayload, elders: seq<ElderId>, t: Tables)
    requires DirectoryWellFormed(dir)
    ensures var o := RunBatch(dir, ch, requester, payload, elders, t);
            && |o.tables.sent| == |t.sent| + NotifiedCount(dir, ch, requester, payload, elders, FirstFailure(dir, ch, requester, payload, elders))
            && o.tables.sent[..|t.sent|] == t.sent
  {
    if elders != [] {
      var o := RunStep(dir, ch, requester, payload, elders[0], t);
      if o.failure.None? {
        BatchPushCount(dir, ch, requester, payload, elders[1..], o.tables);
        var m := FirstFailure(dir, ch, requester, payload, elders[1..]);
        assert NotifiedCount(dir, ch, requester, payload, elders, m + 1) == NotifiedCount(dir, ch, requester, payload, elders[1..], m) + 1;
        var s := RunBatch(dir, ch, requester, payload, elders[1..], o.tables).tables.sent;
        assert s[..|t.sent|] == s[..|o.tables.sent|][..|t.sent|];
      }
    }
  }

  /** The k-th push of a batch is about the k-th elder: it goes to the elder's related
      users minus the requester, carries the content as sent, and links to the k-th new
      report. */
  lemma {:induction false} BatchPushRows(dir: Directory, ch: Choices, requester: UserId, payload: ReportPayload, elders: seq<ElderId>, t: Tables)
    requires DirectoryWellFormed(dir)
    ensures NotifiedCount(dir, ch, requester, payload, elders, FirstFailure(dir, ch, requester, payload, elders)) <= |elders|
    ensures var o := RunBatch(dir, ch, requester, payload, elders, t);
            var n := NotifiedCount(dir, ch, requester, payload, elders, FirstFailure(dir, ch, requester, payload, elders));
            && |o.tables.sent| == |t.sent| + n
            && forall k :: 0 <= k < n ==>
                 && StepNotifies(dir, ch, requester, payload, elders[k])
                 && o.tables.sent[|t.sent| + k] == ReportPush(dir, ch, requester, payload, elders[k], t.nextReport + k)
  {
    BatchPushCount(dir, ch, requester, payload, elders, t);
    var n := NotifiedCount(dir, ch, requester, payload, elders, FirstFailure(dir, ch, requester, payload, elders));
    forall k | 0 <= k < n
      ensures var o := RunBatch(dir, ch, requester, payload, elders, t);
              && StepNotifies(dir, ch, requester, payload, elders[k])
              && o.tables.sent[|t.sent| + k] == ReportPush(dir, ch, requester, payload, elders[k], t.nextReport + k)
    {
      BatchPushAt(dir, ch, requester, payload, elders, t, |t.sent| + k);
    }
  }

  /** The push at one position of BatchPushRows, by induction on the elders. */
  lemma {:induction false} BatchPushAt(dir: Directory, ch: Choices, requester: UserId, payload: ReportPayload, elders: seq<ElderId>, t: Tables, j: nat)
    requires DirectoryWellFormed(dir)
    requires |t.sent| <= j < |t.sent| + NotifiedCount(dir, ch, requester, payload, elders, FirstFailure(dir, ch, requester, payload, elders))
    ensures j - |t.sent| < |elders|
    ensures var o := RunBatch(dir, ch, requester, payload, elders, t);
            && j < |o.tables.sent|
            && StepNotifies(dir, ch, requester, payload, elders[j - |t.sent|])
            && o.tables.sent[j] == ReportPush(dir, ch, requester, payload, elders[j - |t.sent|], t.nextReport + (j - |t.sent|))
  {
    var o := RunStep(dir, ch, requester, payload, elders[0], t);
    if o.failure.Some? {
      assert RunBatch(dir, ch, requester, payload, elders, t) == o;
      assert FirstFailure(dir, ch, requester, payload, elders) == 0;
    } else {
      var rest := elders[1..];
      var m := FirstFailure(dir, ch, requester, payload, rest);
      assert FirstFailure(dir, ch, requester, payload, elders) == m + 1;
      assert m < |rest| ==> elders[m + 1] == rest[m];
      assert NotifiedCount(dir, ch, requester, payload, elders, m + 1) == NotifiedCount(dir, ch, requester, payload, rest, m) + 1;
      if j == |t.sent| {
        BatchPushCount(dir, ch, requester, payload, rest, o.tables);
        var s := RunBatch(dir, ch, requester, payload, rest, o.tables).tables.sent;
        assert s[j] == s[..|o.tables.sent|][j];
      } else {
        BatchPushAt(dir, ch, requester, payload, rest, o.tables, j);
        assert elders[j - |t.sent|] == rest[j - |t.sent| - 1];
      }
    }
  }

  /** `m` with the image rows a batch saves: one per file, each linked to every report of
      the batch. */
  function SaveImages(m: map<ImageId, Image>, files: seq<ImageFile>, base: nat, ids: seq<ReportId>): map<ImageId, Image>
  {
    if files == [] then m
    else
      var last := |files| - 1;
      SaveImages(m, files[..last], base, ids)[base + last := Image(files[last], set k | k in ids)]
  }

  /** Each uploaded file becomes one image row linked to all the reports of the batch;
      no file, no row. */
  lemma {:induction false} SaveImagesRows(m: map<ImageId, Image>, files: seq<ImageFile>, base: nat, ids: seq<ReportId>)
    requires forall i :: i in m ==> i < base
    ensures var im := SaveImages(m, files, base, ids);
            && (forall i :: i in im <==> i in m || base <= i < base + |files|)
            && (forall i :: i in m ==> im[i] == m[i])
            && (forall i :: base <= i < base + |files| ==> im[i].file == files[i - base] && im[i].reports == set r | r in ids)
  {
    if files != [] {
      SaveImagesRows(m, files[..|files| - 1], base, ids);
    }
  }

  /** The target list cannot be built: a guardian without exactly one elder in the
      center, or a non-guardian body without `elders`. */
  predicate ResolutionFails(dir: Directory, requester: UserId, acct: Account, payload: ReportPayload)
  {
    if acct.isGuardian then |GuardianEldersIn(dir, requester, payload.center)| != 1 else payload.elders.None?
  }

  // ---------------------------------------------------------------- the store

  /** The store's invariant: referential integrity, ids below their counters, stored
      health values drawn from the choice tables, and creation times below the clock that
      grow with ids (so id order is the `created_at` order). */
  ghost predicate Inv(db: Db, nextReport: nat, nextImage: nat, clock: nat, ch: Choices)
  {
    && Closed(db)
    && (forall id :: id in db.reports ==> id < nextReport && db.reports[id].createdAt < clock)
    && ReportsInOrder(db.reports)
    && (forall id :: id in db.health ==> HealthValid(ch, db.health[id]))
    && (forall i :: i in db.images ==> i < nextImage)
    && (forall c :: c in db.comments ==> c < db.nextComment && db.comments[c].createdAt < clock)
    && CommentsInOrder(db.comments)
  }

  /** A later report id was created later. */
  ghost predicate ReportsInOrder(reports: map<ReportId, Report>)
  {
    forall a, b :: a in reports && b in reports && a < b ==> reports[a].createdAt < reports[b].createdAt
  }

  /** A later comment id was created later. */
  ghost predicate CommentsInOrder(comments: map<CommentId, Comment>)
  {
    forall a, b :: a in comments && b in comments && a < b ==> comments[a].createdAt < comments[b].createdAt
  }

  /** Deleting rows keeps the invariant, as long as the result is closed. */
  lemma InvShrinks(db: Db, d: Db, nextReport: nat, nextImage: nat, clock: nat, ch: Choices)
    requires Inv(db, nextReport, nextImage, clock, ch) && Shrinks(db, d) && Closed(d)
    ensures Inv(d, nextReport, nextImage, clock, ch)
  {
  }

  class ReportStore {
    var reports: map<ReportId, Report>
    var health: map<ReportId, HealthValues>
    var images: map<ImageId, Image>
    var comments: map<CommentId, Comment>
    var nextReport: nat
    var nextImage: nat
    var nextComment: nat
    var clock: nat            // the monotonic stand-in for `auto_now_add`
    var sent: seq<Push>       // every call made to the push gateway, oldest first
    const choices: Choices

    function Snapshot(): Db
      reads this
    {
      Db(reports, health, images, comments, nextComment)
    }

    /** The part of the state the create loop changes. */
    function Batchable(): Tables
      reads this
    {
      Tables(reports, health, sent, nextReport, clock)
    }

    /** The store's invariant (see Inv). */
    ghost predicate Valid()
      reads this
    {
      Inv(Snapshot(), nextReport, nextImage, clock, choices)
    }

    constructor (choices: Choices)
      ensures Valid() && this.choices == choices
      ensures reports == map[] && health == map[] && images == map[] && comments == map[] && sent == []
    {
      reports, health, images, comments := map[], map[], map[], map[];
      nextReport, nextImage, nextComment, clock := 0, 0, 0, 0;
      sent := [];
      this.choices := choices;
    }

    // ------------------------------------------------------------ ReportViewSet.list

    /** The listing of a center for the requester: exactly the visible reports, newest
        first; no center parameter is an error. */
    function List(dir: Directory, requester: UserId, acct: Account, center: Option<CenterId>): (res: Result<seq<ReportId>>)
      reads this
      requires Valid() && requester in dir.accounts && acct == dir.accounts[requester]
      ensures center.None? <==> res == Err(MissingCenterParam)
      ensures res.Ok? ==> forall id :: id in res.value <==> id in reports && Visible(dir, requester, acct, center.value, reports[id])
      ensures res.Ok? ==> forall i, j :: 0 <= i < j < |res.value| ==>
                res.value[i] in reports && res.value[j] in reports &&
                reports[res.value[i]].createdAt > reports[res.value[j]].createdAt
    {
      match center
      case None => Err(MissingCenterParam)
      case Some(c) => Ok(Descending(reports, (r: Report) => Visible(dir, requester, acct, c, r), nextReport))
    }

    /** The nested comments of a report come oldest first. */
    lemma CommentsOldestFirst(id: ReportId)
      requires Valid()
      ensures var ids := CommentsOf(Snapshot(), id);
              forall i, j :: 0 <= i < j < |ids| ==>
                ids[i] in comments && ids[j] in comments && comments[ids[i]].createdAt < comments[ids[j]].createdAt
    {
      var ids := CommentsOf(Snapshot(), id);
      forall i, j | 0 <= i < j < |ids|
        ensures ids[i] in comments && ids[j] in comments && comments[ids[i]].createdAt < comments[ids[j]].createdAt
      {
        assert ids[i] in ids && ids[j] in ids;
      }
    }

    // ------------------------------------------------------------ ReportViewSet.partial_update

    /** The `read_people` branch of a partial update: `reader` (taken from the body, not
        necessarily the requester) joins the report's read set; nothing else changes. */
    method MarkRead(dir: Directory, id: ReportId, reader: UserId) returns (res: Result<nat>)
      requires Valid()
      modifies this`reports
      ensures Valid()
      ensures id !in old(reports) ==> res == Err(NotFound)
      ensures id in old(reports) && reader !in dir.accounts ==> res == Err(UnknownUser)
      ensures id in old(reports) && reader in dir.accounts ==> res == Ok(HttpOk)
      ensures res.Ok? ==> reports == old(reports)[id := AddReader(old(reports)[id], reader)]
      ensures res.Err? ==> reports == old(reports)
    {
      if id !in reports {
        return Err(NotFound);
      }
      if reader !in dir.accounts {
        return Err(UnknownUser);
      }
      reports := reports[id := AddReader(reports[id], reader)];
      res := Ok(HttpOk);
    }

    // ------------------------------------------------------------ ReportViewSet.create

    /** The target elders: a guardian's list is forced to their single elder in the
        requested center (whatever the body says); anyone else's is the body's list. */
    method ResolveElders(dir: Directory, requester: UserId, acct: Account, payload: ReportPayload)
      returns (res: Result<seq<ElderId>>)
      requires requester in dir.accounts && acct == dir.accounts[requester]
      ensures res.Err? <==> ResolutionFails(dir, requester, acct, payload)
      ensures acct.isGuardian ==>
                var g := GuardianEldersIn(dir, requester, payload.center);
                && (res.Ok? ==> |res.value| == 1 && g == {res.value[0]})
                && (res.Err? ==> res.error == GuardianElderLookup)
      ensures !acct.isGuardian ==>
                res == if payload.elders.Some? then Ok(payload.elders.value) else Err(MissingElders)
    {
      if acct.isGuardian {
        var g := GuardianEldersIn(dir, requester, payload.center);
        if |g| != 1 {
          return Err(GuardianElderLookup);
        }
        var e :| e in g;
        assert |g - {e}| == 0;
        assert g - {e} == {};
        return Ok([e]);
      }
      if payload.elders.None? {
        return Err(MissingElders);
      }
      res := Ok(payload.elders.value);
    }

    /** `serializer.save()` of CreateReportSerializer: a new row under the next id,
        stamped with the clock. */
    method AddReport(input: ReportInput) returns (id: ReportId)
      requires Valid()
      modifies this`reports, this`nextReport, this`clock
      ensures Valid()
      ensures id == old(nextReport) && id !in old(reports)
      ensures reports == old(reports)[id := NewReport(input, old(clock))]
      ensures nextReport == old(nextReport) + 1 && clock == old(clock) + 1
    {
      id := nextReport;
      reports := reports[id := NewReport(input, clock)];
      nextReport, clock := nextReport + 1, clock + 1;
    }

    /** `serializer.save()` of CreateReportHealthSerializer for a validated payload. */
    method AddHealth(id: ReportId, values: HealthValues)
      requires Valid() && id in reports && HealthValid(choices, values)
      modifies this`health
      ensures Valid()
      ensures health == old(health)[id := values]
    {
      health := health[id := values];
    }

    /** `serializer.save()` of ReportImageSerializer: one image row linked to `ids`. */
    method AddImage(file: ImageFile, ids: seq<ReportId>)
      requires Valid() && forall k :: k in ids ==> k in reports
      modifies this`images, this`nextImage
      ensures Valid()
      ensures images == old(images)[old(nextImage) := Image(file, set k | k in ids)]
      ensures nextImage == old(nextImage) + 1
    {
      images := images[nextImage := Image(file, set k | k in ids)];
      nextImage := nextImage + 1;
    }

    /** The rest of a step once the report `id` is saved: recipients, push, health. */
    method Notify(dir: Directory, requester: UserId, payload: ReportPayload, e: ElderId, id: ReportId)
      returns (res: Result<ReportId>)
      requires Valid() && DirectoryWellFormed(dir) && ReportInputValid(dir, InputFor(payload, e))
      requires id in reports && id !in health
      modifies this`health, this`sent
      ensures Valid()
      ensures var f := StepFailure(dir, choices, requester, payload, e);
              res == if f.None? then Ok(id) else Err(f.value)
      ensures sent == if StepNotifies(dir, choices, requester, payload, e)
                      then old(sent) + [ReportPush(dir, choices, requester, payload, e, id)] else old(sent)
      ensures health == if res.Ok? && payload.health.Some? then old(health)[id := payload.health.value] else old(health)
    {
      var info := dir.elders[e];
      var people := CollectRelated(info, dir.centerOwners[info.center]);
      assert people == RelatedTo(dir, e);
      RelatedMembership(dir, e, requester);
      var remaining := RemoveFirst(people, requester);
      if remaining.Err? {
        return Err(remaining.error);
      }
      if payload.content.None? {
        return Err(MissingContent);
      }
      sent := sent + [Push(remaining.value, ReportTitle, payload.content.value, DeepLink, id)];
      if payload.health.Some? {
        var h := HealthInput(id, payload.health.value);
        if !HealthInputValid(choices, Snapshot(), h) {
          return Err(InvalidHealth);
        }
        AddHealth(id, h.values);
      }
      res := Ok(id);
    }

    /** One iteration of the create loop, for elder `e`: it has exactly the effect and the
        outcome of RunStep. */
    method SaveForElder(dir: Directory, requester: UserId, payload: ReportPayload, e: ElderId)
      returns (res: Result<ReportId>)
      requires Valid() && DirectoryWellFormed(dir)
      modifies this`reports, this`health, this`nextReport, this`clock, this`sent
      ensures Valid()
      ensures var o := RunStep(dir, choices, requester, payload, e, old(Batchable()));
              && Batchable() == o.tables
              && res == if o.failure.None? then Ok(old(nextReport)) else Err(o.failure.value)
    {
      var input := InputFor(payload, e);
      if !ReportInputValid(dir, input) {
        return Err(InvalidReport);
      }
      var id := AddReport(input);
      res := Notify(dir, requester, payload, e, id);
    }

    /** The elder loop of `create`: one step per elder, in order, stopping at the first
        failing step; earlier steps are not rolled back. On success the new ids are
        consecutive from the counter's old value. */
    method SaveBatch(dir: Directory, requester: UserId, payload: ReportPayload, elders: seq<ElderId>)
      returns (res: Result<seq<ReportId>>)
      requires Valid() && DirectoryWellFormed(dir)
      modifies this`reports, this`health, this`nextReport, this`clock, this`sent
      ensures Valid()
      ensures var o := RunBatch(dir, choices, requester, payload, elders, old(Batchable()));
              && Batchable() == o.tables
              && (res.Ok? <==> o.failure.None?)
              && (res.Err? ==> res.error == o.failure.value)
      ensures res.Ok? ==> |res.value| == |elders| && forall k :: 0 <= k < |elders| ==> res.value[k] == old(nextReport) + k
    {
      ghost var t0 := Batchable();
      var ids: seq<ReportId> := [];
      var i := 0;
      while i < |elders|
        invariant 0 <= i <= |elders|
        invariant Valid()
        invariant RunBatch(dir, choices, requester, payload, elders, t0) == RunBatch(dir, choices, requester, payload, elders[i..], Batchable())
        invariant |ids| == i && forall k :: 0 <= k < i ==> ids[k] == t0.nextReport + k
        invariant nextReport == t0.nextReport + i
      {
        assert elders[i..][1..] == elders[i + 1..];
        var step := SaveForElder(dir, requester, payload, elders[i]);
        if step.Err? {
          return Err(step.error);
        }
        ids := ids + [step.value];
        i := i + 1;
      }
      res := Ok(ids);
    }

    /** The image loop of `create`: one image row per file, each linked to all of `ids`. */
    method SaveBatchImages(files: seq<ImageFile>, ids: seq<ReportId>)
      requires Valid() && forall k :: k in ids ==> k in reports
      modifies this`images, this`nextImage
      ensures Valid()
      ensures images == SaveImages(old(images), files, old(nextImage), ids)
      ensures nextImage == old(nextImage) + |files|
    {
      var j := 0;
      while j < |files|
        invariant 0 <= j <= |files|
        invariant Valid()
        invariant nextImage == old(nextImage) + j
        invariant images == SaveImages(old(images), files[..j], old(nextImage), ids)
      {
        assert files[..j + 1][..j] == files[..j];
        AddImage(files[j], ids);
        j := j + 1;
      }
      assert files[..j] == files;
    }

    /** `create`: one report per target elder, in order, then one image row per uploaded
        file linked to the whole batch. The batch's rows, health rows and pushes are those
        of `RunBatch` (see BatchFailure, BatchReportRows, BatchHealth and BatchPushRows); when a
        step fails nothing is rolled back and no image is saved. */
    method Create(dir: Directory, requester: UserId, acct: Account, payload: ReportPayload)
      returns (res: Result<seq<ReportId>>, status: nat, ghost targets: seq<ElderId>)
      requires Valid() && DirectoryWellFormed(dir)
      requires requester in dir.accounts && acct == dir.accounts[requester]
      modifies this`reports, this`health, this`images, this`nextReport, this`nextImage, this`clock, this`sent
      ensures Valid()
      ensures res.Ok? ==> status == HttpCreated
      ensures nextImage == old(nextImage) + (if res.Ok? then |payload.images| else 0)
      ensures acct.isGuardian && !ResolutionFails(dir, requester, acct, payload) ==>
                |targets| == 1 && GuardianEldersIn(dir, requester, payload.center) == {targets[0]}
      ensures !acct.isGuardian && payload.elders.Some? ==> targets == payload.elders.value
      ensures ResolutionFails(dir, requester, acct, payload) ==>
                && res == Err(if acct.isGuardian then GuardianElderLookup else MissingElders)
                && Batchable() == old(Batchable()) && images == old(images)
      ensures !ResolutionFails(dir, requester, acct, payload) ==>
                var o := RunBatch(dir, choices, requester, payload, targets, old(Batchable()));
                && Batchable() == o.tables
                && (res.Ok? <==> o.failure.None?)
                && (res.Err? ==> res.error == o.failure.value && images == old(images))
                && (res.Ok? ==> |res.value| == |targets| && (forall k :: 0 <= k < |targets| ==> res.value[k] == old(nextReport) + k)
                                && images == SaveImages(old(images), payload.images, old(nextImage), res.value))
    {
      var resolved := ResolveElders(dir, requester, acct, payload);
      if resolved.Err? {
        return Err(resolved.error), 0, [];
      }
      targets, status := resolved.value, 0;
      ghost var t0 := Batchable();
      res := SaveBatch(dir, requester, payload, resolved.value);
      if res.Ok? {
        BatchCompleteIds(dir, choices, requester, payload, targets, t0);
        forall k | k in res.value
          ensures k in reports
        {
        }
        SaveBatchImages(payload.images, res.value);
        status := HttpCreated;
      }
    }

    // ------------------------------------------------------------ ReportViewSet.destroy

    /** Writes back the tables after a deletion computed on a snapshot. */
    method Replace(d: Db)
      requires Valid() && Shrinks(Snapshot(), d) && Closed(d)
      modifies this`reports, this`health, this`images, this`comments
      ensures Valid() && Snapshot() == d
    {
      InvShrinks(Snapshot(), d, nextReport, nextImage, clock, choices);
      reports, health, images, comments := d.reports, d.health, d.images, d.comments;
    }

    /** Deleting one report: its health row and comments go with it, image rows only lose
        the link; an unknown id is not found. */
    method DestroyReport(id: ReportId) returns (res: Result<nat>)
      requires Valid()
      modifies this`reports, this`health, this`images, this`comments
      ensures Valid()
      ensures id !in old(reports) ==> res == Err(NotFound) && Snapshot() == old(Snapshot())
      ensures id in old(reports) ==> res == Ok(HttpOk) && Snapshot() == DeleteReports(old(Snapshot()), {id})
    {
      if id !in reports {
        return Err(NotFound);
      }
      Replace(DeleteReports(Snapshot(), {id}));
      res := Ok(HttpOk);
    }

    // ------------------------------------------------------------ CommentViewSet.create

    /** `serializer.save()` of CreateCommentSerializer: the next id, stamped with the clock. */
    method AddComment(input: CommentInput) returns (id: CommentId)
      requires Valid() && input.report in reports
      modifies this`comments, this`nextComment, this`clock
      ensures Valid()
      ensures id == old(nextComment) && id !in old(comments)
      ensures comments == old(comments)[id := NewComment(input, old(clock))]
      ensures nextComment == old(nextComment) + 1 && clock == old(clock) + 1
    {
      id := nextComment;
      comments := comments[id := NewComment(input, clock)];
      nextComment, clock := nextComment + 1, clock + 1;
    }

    /** The push of a new comment on a report about elder `e`. */
    method NotifyComment(dir: Directory, requester: UserId, input: CommentInput, e: ElderId) returns (res: Result<()>)
      requires DirectoryWellFormed(dir) && e in dir.elders
      modifies this`sent
      ensures !IsRelated(dir, e, requester) ==> res == Err(NotRecipient) && sent == old(sent)
      ensures IsRelated(dir, e, requester) ==> res == Ok(()) && sent == old(sent) + [CommentPush(dir, requester, input, e)]
    {
      var info := dir.elders[e];
      var people := CollectRelated(info, dir.centerOwners[info.center]);
      assert people == RelatedTo(dir, e);
      RelatedMembership(dir, e, requester);
      var remaining := RemoveFirst(people, requester);
      if remaining.Err? {
        return Err(remaining.error);
      }
      sent := sent + [Push(remaining.value, CommentTitle, input.message, DeepLink, input.report)];
      res := Ok(());
    }

    /** `create` of a comment: validate and save it, then notify everyone related to the
        report's elder except one occurrence of the requester, and answer with the comment
        rendered for the requester. A failure after the save leaves the comment saved. */
    method CreateComment(dir: Directory, requester: UserId, input: CommentInput) returns (res: Result<CommentView>, status: nat)
      requires Valid() && DirectoryWellFormed(dir)
      modifies this`comments, this`nextComment, this`clock, this`sent
      ensures Valid()
      ensures res.Ok? ==> status == HttpCreated
      ensures !CommentInputValid(dir, old(Snapshot()), input) ==>
                && res == Err(InvalidComment) && comments == old(comments) && sent == old(sent)
                && nextComment == old(nextComment) && clock == old(clock)
      ensures CommentInputValid(dir, old(Snapshot()), input) ==>
                && comments == old(comments)[old(nextComment) := NewComment(input, old(clock))]
                && nextComment == old(nextComment) + 1 && clock == old(clock) + 1
                && var e := reports[input.report].elder;
                   if e !in dir.elders then res == Err(ElderMissing) && sent == old(sent)
                   else if !IsRelated(dir, e, requester) then res == Err(NotRecipient) && sent == old(sent)
                   else && res == Ok(RenderComment(old(nextComment), NewComment(input, old(clock)), requester))
                        && sent == old(sent) + [CommentPush(dir, requester, input, e)]
    {
      if !CommentInputValid(dir, Snapshot(), input) {
        return Err(InvalidComment), 0;
      }
      var id := AddComment(input);
      var e := reports[input.report].elder;
      if e !in dir.elders {
        return Err(ElderMissing), 0;
      }
      var pushed := NotifyComment(dir, requester, input, e);
      if pushed.Err? {
        return Err(pushed.error), 0;
      }
      res, status := Ok(RenderComment(id, comments[id], requester)), HttpCreated;
    }

    // ------------------------------------------------------------ CommentViewSet.destroy

    /** Deleting one comment; an unknown id is not found. */
    method DestroyComment(id: CommentId) returns (res: Result<nat>)
      requires Valid()
      modifies this`comments
      ensures Valid()
      ensures id !in old(comments) ==> res == Err(NotFound) && comments == old(comments)
      ensures id in old(comments) ==> res == Ok(HttpNoContent) && comments == old(comments) - {id}
    {
      if id !in comments {
        return Err(NotFound);
      }
      comments := comments - {id};
      res := Ok(HttpNoContent);
    }

    // ------------------------------------------------------------ cascades from other applications

    /** A user account is deleted: the CASCADE foreign keys of Report.user and
        Comment.user, and the read-receipt relation. */
    method OnUserDeleted(u: UserId)
      requires Valid()
      modifies this`reports, this`health, this`images, this`comments
      ensures Valid()
      ensures Snapshot() == DeleteUser(old(Snapshot()), u)
    {
      Replace(DeleteUser(Snapshot(), u));
    }

    /** A center is deleted: the CASCADE foreign key of Report.center. */
    method OnCenterDeleted(c: CenterId)
      requires Valid()
      modifies this`reports, this`health, this`images, this`comments
      ensures Valid()
      ensures Snapshot() == DeleteCenter(old(Snapshot()), c)
    {
      Replace(DeleteCenter(Snapshot(), c));
    }

    /** An elder is deleted: the CASCADE foreign key of Report.elder. */
    method OnElderDeleted(e: ElderId)
      requires Valid()
      modifies this`reports, this`health, this`images, this`comments
      ensures Valid()
      ensures Snapshot() == DeleteElder(old(Snapshot()), e)
    {
      Replace(DeleteElder(Snapshot(), e));
    }
  }
}
