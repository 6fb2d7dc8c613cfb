/** What the serializers accept and what they emit: the input schemas of the Create*
    serializers with their validation, and the rendering of reports and comments for
    the requesting user. */
module Presentation {
  import opened Types
  import opened Schema

  // ---------------------------------------------------------------- text fields

  /** The characters a text field's whitespace trimming removes: Python's whitespace
      class (`str.strip()` with no argument). */
  predicate IsSpace(c: char)
  {
    || ('\t' <= c <= '\r')
    || ('\U{1C}' <= c <= ' ')
    || c == '\U{85}' || c == '\U{A0}' || c == '\U{1680}'
    || ('\U{2000}' <= c <= '\U{200A}')
    || c == '\U{2028}' || c == '\U{2029}' || c == '\U{202F}' || c == '\U{205F}' || c == '\U{3000}'
  }

  predicate Blank(s: string)
  {
    forall k :: 0 <= k < |s| ==> IsSpace(s[k])
  }

  /** `s` without its leading whitespace. */
  function TrimStart(s: string): string
  {
    if s != [] && IsSpace(s[0]) then TrimStart(s[1..]) else s
  }

  /** `s` without its trailing whitespace. */
  function TrimEnd(s: string): string
  {
    if s != [] && IsSpace(s[|s| - 1]) then TrimEnd(s[..|s| - 1]) else s
  }

  /** A text field's value as stored: leading and trailing whitespace removed. */
  function Strip(s: string): string
  {
    TrimEnd(TrimStart(s))
  }

  /** TrimStart drops a prefix made only of whitespace, and what is left is empty or
      starts with a non-space character. */
  lemma {:induction false} TrimStartSpec(s: string)
    ensures var r := TrimStart(s);
            && |r| <= |s| && r == s[|s| - |r|..]
            && (forall k :: 0 <= k < |s| - |r| ==> IsSpace(s[k]))
            && (r != [] ==> !IsSpace(r[0]))
  {
    if s != [] && IsSpace(s[0]) {
      TrimStartSpec(s[1..]);
      var r := TrimStart(s);
      forall k | 0 < k < |s| - |r|
        ensures IsSpace(s[k])
      {
        assert s[k] == s[1..][k - 1];
      }
    }
  }

  /** TrimEnd drops a suffix made only of whitespace, and what is left is empty or ends
      with a non-space character. */
  lemma {:induction false} TrimEndSpec(s: string)
    ensures var r := TrimEnd(s);
            && |r| <= |s| && r == s[..|r|]
            && (forall k :: |r| <= k < |s| ==> IsSpace(s[k]))
            && (r != [] ==> !IsSpace(r[|r| - 1]))
  {
    if s != [] && IsSpace(s[|s| - 1]) {
      TrimEndSpec(s[..|s| - 1]);
      var r := TrimEnd(s);
      forall k | |r| <= k < |s| - 1
        ensures IsSpace(s[k])
      {
        assert s[k] == s[..|s| - 1][k];
      }
    }
  }

  /** Stripping keeps exactly the middle of the input: `s` is whitespace, then the
      result, then whitespace; the result is empty exactly when the input is blank,
      and otherwise starts and ends with a non-space character. */
  lemma StripSpec(s: string)
    ensures |TrimStart(s)| <= |s|
    ensures var r := Strip(s);
            var i := |s| - |TrimStart(s)|;
            && i + |r| <= |s| && r == s[i..i + |r|]
            && (forall k :: 0 <= k < i ==> IsSpace(s[k]))
            && (forall k :: i + |r| <= k < |s| ==> IsSpace(s[k]))
            && (r == [] <==> Blank(s))
            && (r != [] ==> !IsSpace(r[0]) && !IsSpace(r[|r| - 1]))
  {
    var t := TrimStart(s);
    TrimStartSpec(s);
    TrimEndSpec(t);
    var r := Strip(s);
    var i := |s| - |t|;
    assert r == t[..|r|];
    assert t == s[i..];
    forall k | i + |r| <= k < |s|
      ensures IsSpace(s[k])
    {
      assert s[k] == t[k - i];
    }
    if r != [] {
      assert s[i] == r[0];
    }
  }

  /** Stripping twice is stripping once. */
  lemma StripIdempotent(s: string)
    ensures Strip(Strip(s)) == Strip(s)
  {
    var r := Strip(s);
    StripSpec(s);
    if r != [] {
      assert TrimStart(r) == r;
      assert TrimEnd(r) == r;
    }
  }

  // ---------------------------------------------------------------- input schemas

  /** CreateReportSerializer's fields: author, center, elder and content. */
  datatype ReportInput = ReportInput(user: UserId, center: CenterId, elder: ElderId, content: Option<string>)

  /** CreateReportHealthSerializer's fields: the report and the six health fields. */
  datatype HealthInput = HealthInput(report: ReportId, values: HealthValues)

  /** CreateCommentSerializer's fields: author, message and report. */
  datatype CommentInput = CommentInput(user: UserId, report: ReportId, message: string)

  /** A text field refuses any value holding the NUL character. */
  predicate NoNul(s: string)
  {
    forall k :: 0 <= k < |s| ==> s[k] != '\0'
  }

  /** The related rows must exist; content is optional, and when given it holds no NUL. */
  predicate ReportInputValid(dir: Directory, input: ReportInput)
  {
    && input.user in dir.accounts && input.center in dir.centerOwners && input.elder in dir.elders
    && (input.content.Some? ==> NoNul(input.content.value))
  }

  /** The report must exist and have no health row yet (one-to-one); every field must be
      null or a code of its choice table. */
  predicate HealthInputValid(ch: Choices, db: Db, input: HealthInput)
  {
    input.report in db.reports && input.report !in db.health && HealthValid(ch, input.values)
  }

  /** Author and report must exist; the message is required, so a blank one is refused,
      and it holds no NUL. */
  predicate CommentInputValid(dir: Directory, db: Db, input: CommentInput)
  {
    input.user in dir.accounts && input.report in db.reports && !Blank(input.message) && NoNul(input.message)
  }

  /** The report row a valid input saves: stripped content, nobody has read it yet. */
  function NewReport(input: ReportInput, now: nat): Report
  {
    Report(input.user, input.center, input.elder,
           match input.content case None => None case Some(s) => Some(Strip(s)),
           {}, now)
  }

  /** The comment row a valid input saves, with its message stripped. */
  function NewComment(input: CommentInput, now: nat): Comment
  {
    Comment(input.user, input.report, Strip(input.message), now)
  }

  // ---------------------------------------------------------------- output shapes

  /** The health section: each coded field as its display label. */
  datatype HealthView = HealthView(
    feeling: Option<string>, health: Option<string>, temperature: Option<string>,
    meal: Option<string>, feces: Option<string>, sleeping: Option<string>)
  {
    function Get(f: HealthField): Option<string>
    {
      match f
      case Feeling => feeling
      case Health => health
      case Temperature => temperature
      case Meal => meal
      case Feces => feces
      case Sleeping => sleeping
    }
  }

  /** A rendered comment. Its `report` field is write-only and is not emitted. */
  datatype CommentView = CommentView(id: CommentId, message: string, createdAt: nat, user: UserId, isMine: bool)

  /** A rendered image. Its `report` field is write-only and is not emitted. */
  datatype ImageView = ImageView(id: ImageId, file: ImageFile)

  /** A rendered report. `read_people` is write-only and is not emitted; the elder is
      shown by name. */
  datatype ReportView = ReportView(
    id: ReportId, user: UserId, center: CenterId, elder: string, content: Option<string>,
    createdAt: nat, health: Option<HealthView>, images: set<ImageView>,
    comments: seq<CommentView>, isRead: bool, isMine: bool)

  /** The label of each code of each field; the tables are not part of this model. */
  type Labels = (HealthField, int) -> string

  /** A field's display value: its label, or null for a null column. */
  function Display(labels: Labels, f: HealthField, code: Option<int>): Option<string>
  {
    match code
    case None => None
    case Some(c) => Some(labels(f, c))
  }

  /** ReportHealthSerializer: exactly the six fields, each shown by its own label. */
  function RenderHealth(labels: Labels, h: HealthValues): (v: HealthView)
    ensures forall f: HealthField :: v.Get(f) == Display(labels, f, h.Get(f))
    ensures forall f: HealthField :: v.Get(f).None? <==> h.Get(f).None?
  {
    HealthView(
      Display(labels, Feeling, h.feeling), Display(labels, Health, h.health),
      Display(labels, Temperature, h.temperature), Display(labels, Meal, h.meal),
      Display(labels, Feces, h.feces), Display(labels, Sleeping, h.sleeping))
  }

  /** CommentSerializer for the requesting user. */
  function RenderComment(id: CommentId, c: Comment, requester: UserId): (v: CommentView)
    ensures v.isMine <==> c.user == requester
    ensures v.id == id && v.message == c.message && v.createdAt == c.createdAt && v.user == c.user
  {
    CommentView(id, c.message, c.createdAt, c.user, c.user == requester)
  }

  /** The comments of a report, oldest first (Comment's default ordering). */
  function CommentsOf(db: Db, id: ReportId): (ids: seq<CommentId>)
    ensures forall k :: k in ids <==> k in db.comments && k < db.nextComment && db.comments[k].report == id
    ensures forall i, j :: 0 <= i < j < |ids| ==> ids[i] < ids[j]
  {
    Ascending(db.comments, (c: Comment) => c.report == id, db.nextComment)
  }

  function RenderComments(db: Db, ids: seq<CommentId>, requester: UserId): (vs: seq<CommentView>)
    requires forall k :: k in ids ==> k in db.comments
    ensures |vs| == |ids|
    ensures forall i :: 0 <= i < |ids| ==> vs[i] == RenderComment(ids[i], db.comments[ids[i]], requester)
  {
    if ids == [] then []
    else [RenderComment(ids[0], db.comments[ids[0]], requester)] + RenderComments(db, ids[1..], requester)
  }

  /** The images linked to a report. */
  function ImagesOf(db: Db, id: ReportId): (vs: set<ImageView>)
    ensures forall v :: v in vs <==> v.id in db.images && id in db.images[v.id].reports && v.file == db.images[v.id].file
  {
    set i | i in db.images && id in db.images[i].reports :: ImageView(i, db.images[i].file)
  }

  /** ReportSerializer for the requesting user. */
  function RenderReport(labels: Labels, dir: Directory, db: Db, id: ReportId, requester: UserId): (v: ReportView)
    requires id in db.reports && db.reports[id].elder in dir.elders
    ensures v.id == id && v.user == db.reports[id].user && v.center == db.reports[id].center
    ensures v.content == db.reports[id].content && v.createdAt == db.reports[id].createdAt
    ensures v.elder == dir.elders[db.reports[id].elder].name
    ensures v.isMine <==> db.reports[id].user == requester
    ensures v.isRead <==> requester in db.reports[id].readPeople
    ensures v.health.None? <==> id !in db.health
    ensures v.health.Some? ==> v.health.value == RenderHealth(labels, db.health[id])
    ensures v.images == ImagesOf(db, id)
    ensures |v.comments| == |CommentsOf(db, id)|
  {
    var r := db.reports[id];
    ReportView(
      id, r.user, r.center, dir.elders[r.elder].name, r.content, r.createdAt,
      if id in db.health then Some(RenderHealth(labels, db.health[id])) else None,
      ImagesOf(db, id),
      RenderComments(db, CommentsOf(db, id), requester),
      requester in r.readPeople,
      r.user == requester)
  }

  /** The nested comments are exactly the report's comments, oldest first, each rendered
      for the same requester and so carrying its own `is_mine`. */
  lemma NestedComments(labels: Labels, dir: Directory, db: Db, id: ReportId, requester: UserId, k: nat)
    requires id in db.reports && db.reports[id].elder in dir.elders
    requires k < |CommentsOf(db, id)|
    ensures var v := RenderReport(labels, dir, db, id, requester);
            var c := CommentsOf(db, id)[k];
            && c in db.comments && db.comments[c].report == id
            && v.comments[k] == RenderComment(c, db.comments[c], requester)
            && (v.comments[k].isMine <==> db.comments[c].user == requester)
  {
    var ids := CommentsOf(db, id);
    assert ids[k] in ids;
  }

  /** Saving a comment under the next id puts it last among its report's nested
      comments, and leaves every other report's nested comments as they were. */
  lemma CommentAppended(db: Db, c: Comment, other: ReportId)
    requires forall k :: k in db.comments ==> k < db.nextComment
    ensures var db' := db.(comments := db.comments[db.nextComment := c], nextComment := db.nextComment + 1);
            && CommentsOf(db', c.report) == CommentsOf(db, c.report) + [db.nextComment]
            && (other != c.report ==> CommentsOf(db', other) == CommentsOf(db, other))
  {
    var m' := db.comments[db.nextComment := c];
    AscendingAgree(m', db.comments, (x: Comment) => x.report == c.report, db.nextComment);
    AscendingAgree(m', db.comments, (x: Comment) => x.report == other, db.nextComment);
  }

  /** Marking a report read for `u` flips `is_read` for `u` and for nobody else, and
      changes nothing else in the rendering. */
  lemma IsReadAfterMarkRead(labels: Labels, dir: Directory, db: Db, id: ReportId, u: UserId, requester: UserId)
    requires id in db.reports && db.reports[id].elder in dir.elders
    ensures var r := db.reports[id];
            var db' := db.(reports := db.reports[id := AddReader(r, u)]);
            var before := RenderReport(labels, dir, db, id, requester);
            var after := RenderReport(labels, dir, db', id, requester);
            && (after.isRead <==> requester == u || before.isRead)
            && after == before.(isRead := after.isRead)
  {
  }
}
