/** The rows of the report application (Report, ReportHealth, ReportImage, Comment), the
    directory of users, centers and elders that they refer to, and the default orderings. */
module Schema {
  import opened Types

  /** The six coded daily-health fields of a ReportHealth row. */
  datatype HealthField = Feeling | Health | Temperature | Meal | Feces | Sleeping

  /** The choice tables of the coded fields. Their contents live in a constants module
      that is not part of this model, so they are carried as data. */
  datatype Choices = Choices(common: set<int>, temp: set<int>, meal: set<int>, feces: set<int>, sleeping: set<int>)

  /** The choice table each field draws from: feeling and health share the common table. */
  function Allowed(ch: Choices, f: HealthField): set<int>
  {
    match f
    case Feeling => ch.common
    case Health => ch.common
    case Temperature => ch.temp
    case Meal => ch.meal
    case Feces => ch.feces
    case Sleeping => ch.sleeping
  }

  /** The six field values of a ReportHealth row; `None` is a null column. */
  datatype HealthValues = HealthValues(
    feeling: Option<int>, health: Option<int>, temperature: Option<int>,
    meal: Option<int>, feces: Option<int>, sleeping: Option<int>)
  {
    function Get(f: HealthField): Option<int>
    {
      match f
      case Feeling => feeling
      case Health => health
      case Temperature => temperature
      case Meal => meal
      case Feces => feces
      case Sleeping => sleeping
    }
  }

  /** A health field value is acceptable when it is null, or a non-negative integer
      (PositiveIntegerField) taken from the field's choice table. */
  predicate FieldValid(ch: Choices, f: HealthField, v: Option<int>)
  {
    v.None? || (v.value >= 0 && v.value in Allowed(ch, f))
  }

  predicate HealthValid(ch: Choices, h: HealthValues)
  {
    forall f: HealthField :: FieldValid(ch, f, h.Get(f))
  }

  /** An uploaded image file; decoding and storage are not part of this model. */
  type ImageFile = string

  /** A daily report. `content` is nullable; `readPeople` is the many-to-many read-receipt
      relation; `createdAt` is the value of the store's clock when the row was saved. */
  datatype Report = Report(
    user: UserId, center: CenterId, elder: ElderId, content: Option<string>,
    readPeople: set<UserId>, createdAt: nat)

  /** An image row, linked many-to-many to reports. */
  datatype Image = Image(file: ImageFile, reports: set<ReportId>)

  /** A comment on a report; `message` is required. */
  datatype Comment = Comment(user: UserId, report: ReportId, message: string, createdAt: nat)

  /** The report application's tables as one value, as the serializers see them. Health
      rows are keyed by the report they belong to: a report has at most one of them. */
  datatype Db = Db(
    reports: map<ReportId, Report>,
    health: map<ReportId, HealthValues>,
    images: map<ImageId, Image>,
    comments: map<CommentId, Comment>,
    nextComment: nat)

  /** The marks a user account carries. */
  datatype Account = Account(isProtector: bool, isGuardian: bool)

  /** An elder, with the user behind its guardian, its center and the users behind its
      protectors (in the order the relation yields them). */
  datatype ElderInfo = ElderInfo(name: string, center: CenterId, guardianUser: UserId, protectorUsers: seq<UserId>)

  /** The rows of the account and center applications the report views consult:
      accounts, the owner user of each center, and the elders. */
  datatype Directory = Directory(
    accounts: map<UserId, Account>,
    centerOwners: map<CenterId, UserId>,
    elders: map<ElderId, ElderInfo>)

  /** Referential integrity of the directory: every elder's center exists. */
  predicate DirectoryWellFormed(dir: Directory)
  {
    forall e :: e in dir.elders ==> dir.elders[e].center in dir.centerOwners
  }

  /** The keys below `n` of `m` whose value satisfies `keep`, in increasing order
      (oldest first, since keys are handed out in increasing order). */
  function Ascending<T>(m: map<nat, T>, keep: T -> bool, n: nat): (ids: seq<nat>)
    ensures forall i :: 0 <= i < |ids| ==> ids[i] < n
    ensures forall i, j :: 0 <= i < j < |ids| ==> ids[i] < ids[j]
    ensures forall k :: k in ids <==> k < n && k in m && keep(m[k])
  {
    if n == 0 then []
    else
      var rest := Ascending(m, keep, n - 1);
      if n - 1 in m && keep(m[n - 1]) then rest + [n - 1] else rest
  }

  /** The keys below `n` of `m` whose value satisfies `keep`, in decreasing order
      (newest first). */
  function Descending<T>(m: map<nat, T>, keep: T -> bool, n: nat): (ids: seq<nat>)
    ensures forall i :: 0 <= i < |ids| ==> ids[i] < n
    ensures forall i, j :: 0 <= i < j < |ids| ==> ids[i] > ids[j]
    ensures forall k :: k in ids <==> k < n && k in m && keep(m[k])
  {
    if n == 0 then []
    else
      var rest := Descending(m, keep, n - 1);
      if n - 1 in m && keep(m[n - 1]) then [n - 1] + rest else rest
  }

  /** The ascending selection only depends on the entries below the bound. */
  lemma {:induction false} AscendingAgree<T>(m1: map<nat, T>, m2: map<nat, T>, keep: T -> bool, n: nat)
    requires forall k :: k < n ==> (k in m1 <==> k in m2)
    requires forall k :: k < n && k in m1 ==> m1[k] == m2[k]
    ensures Ascending(m1, keep, n) == Ascending(m2, keep, n)
  {
    if n > 0 {
      AscendingAgree(m1, m2, keep, n - 1);
    }
  }

  // ---------------------------------------------------------------- integrity and cascades

  /** A deletion only takes rows away: every health row, image and comment left was
      there before, and the comment counter does not move. */
  ghost predicate Shrinks(db: Db, d: Db)
  {
    && (forall id :: id in d.reports ==> id in db.reports && d.reports[id].createdAt == db.reports[id].createdAt)
    && (forall id :: id in d.health ==> id in db.health && d.health[id] == db.health[id])
    && d.images.Keys <= db.images.Keys
    && (forall c :: c in d.comments ==> c in db.comments && d.comments[c] == db.comments[c])
    && d.nextComment == db.nextComment
  }

  /** Referential integrity inside the report application: health rows, image links and
      comments only point at existing reports. */
  predicate Closed(db: Db)
  {
    && db.health.Keys <= db.reports.Keys
    && (forall i :: i in db.images ==> db.images[i].reports <= db.reports.Keys)
    && (forall c :: c in db.comments ==> db.comments[c].report in db.reports)
  }

  /** Marking a report read for `u`: the many-to-many `add`. */
  function AddReader(r: Report, u: UserId): Report
  {
    r.(readPeople := r.readPeople + {u})
  }

  /** Adding a reader twice is adding it once; adding a reader already present changes nothing. */
  lemma AddReaderIdempotent(r: Report, u: UserId)
    ensures AddReader(AddReader(r, u), u) == AddReader(r, u)
    ensures u in r.readPeople ==> AddReader(r, u) == r
    ensures AddReader(r, u).readPeople - {u} == r.readPeople - {u}
  {
  }

  /** Deleting the reports in `doomed`: their health rows (one-to-one, CASCADE) and their
      comments (CASCADE) go with them; image rows stay and only lose the link, since the
      image relation is many-to-many. */
  function DeleteReports(db: Db, doomed: set<ReportId>): (d: Db)
    ensures Closed(db) ==> Closed(d)
    ensures d.reports.Keys == db.reports.Keys - doomed
    ensures forall id :: id in d.reports ==> d.reports[id] == db.reports[id]
    ensures d.health.Keys == db.health.Keys - doomed
    ensures forall id :: id in d.health ==> d.health[id] == db.health[id]
    ensures forall c :: c in d.comments <==> c in db.comments && db.comments[c].report !in doomed
    ensures forall c :: c in d.comments ==> d.comments[c] == db.comments[c]
    ensures d.images.Keys == db.images.Keys
    ensures forall i :: i in d.images ==> d.images[i].file == db.images[i].file && d.images[i].reports == db.images[i].reports - doomed
    ensures d.nextComment == db.nextComment
    ensures Shrinks(db, d)
  {
    Db(
      map id | id in db.reports && id !in doomed :: db.reports[id],
      map id | id in db.health && id !in doomed :: db.health[id],
      map i | i in db.images :: db.images[i].(reports := db.images[i].reports - doomed),
      map c | c in db.comments && db.comments[c].report !in doomed :: db.comments[c],
      db.nextComment)
  }

  /** The reports written by `u`. */
  function ReportsBy(db: Db, u: UserId): set<ReportId>
  {
    set id | id in db.reports && db.reports[id].user == u
  }

  /** Deleting a user: the reports they wrote go (with their cascades), the comments they
      wrote go, and they leave every read-receipt set. */
  function DeleteUser(db: Db, u: UserId): (d: Db)
    requires Closed(db)
    ensures Closed(d)
    ensures forall id :: id in d.reports <==> id in db.reports && db.reports[id].user != u
    ensures forall id :: id in d.reports ==> d.reports[id] == db.reports[id].(readPeople := db.reports[id].readPeople - {u})
    ensures forall c :: c in d.comments <==> c in db.comments && db.comments[c].user != u && db.comments[c].report in d.reports
    ensures forall c :: c in d.comments ==> d.comments[c] == db.comments[c]
    ensures forall id :: id in d.reports ==> u !in d.reports[id].readPeople
    ensures forall id :: id in d.health <==> id in db.health && id in d.reports
    ensures forall id :: id in d.health ==> d.health[id] == db.health[id]
    ensures d.images.Keys == db.images.Keys
    ensures forall i :: i in d.images ==> d.images[i].file == db.images[i].file && d.images[i].reports == db.images[i].reports - (db.reports.Keys - d.reports.Keys)
    ensures d.nextComment == db.nextComment
    ensures Shrinks(db, d)
  {
    var e := DeleteReports(db, ReportsBy(db, u));
    e.(reports := map id | id in e.reports :: e.reports[id].(readPeople := e.reports[id].readPeople - {u}),
       comments := map c | c in e.comments && e.comments[c].user != u :: e.comments[c])
  }

  /** Deleting a center: every report filed under it goes (with its cascades). */
  function DeleteCenter(db: Db, c: CenterId): (d: Db)
    requires Closed(db)
    ensures Closed(d)
    ensures forall id :: id in d.reports <==> id in db.reports && db.reports[id].center != c
    ensures forall id :: id in d.reports ==> d.reports[id] == db.reports[id]
    ensures forall id :: id in d.health <==> id in db.health && id in d.reports
    ensures forall id :: id in d.health ==> d.health[id] == db.health[id]
    ensures forall c :: c in d.comments <==> c in db.comments && db.comments[c].report in d.reports
    ensures forall c :: c in d.comments ==> d.comments[c] == db.comments[c]
    ensures d.images.Keys == db.images.Keys
    ensures forall i :: i in d.images ==> d.images[i].file == db.images[i].file && d.images[i].reports == db.images[i].reports - (db.reports.Keys - d.reports.Keys)
    ensures d.nextComment == db.nextComment
    ensures Shrinks(db, d)
  {
    DeleteReports(db, set id | id in db.reports && db.reports[id].center == c)
  }

  /** Deleting an elder: every report about them goes (with its cascades). */
  function DeleteElder(db: Db, e: ElderId): (d: Db)
    requires Closed(db)
    ensures Closed(d)
    ensures forall id :: id in d.reports <==> id in db.reports && db.reports[id].elder != e
    ensures forall id :: id in d.reports ==> d.reports[id] == db.reports[id]
    ensures forall id :: id in d.health <==> id in db.health && id in d.reports
    ensures forall id :: id in d.health ==> d.health[id] == db.health[id]
    ensures forall c :: c in d.comments <==> c in db.comments && db.comments[c].report in d.reports
    ensures forall c :: c in d.comments ==> d.comments[c] == db.comments[c]
    ensures d.images.Keys == db.images.Keys
    ensures forall i :: i in d.images ==> d.images[i].file == db.images[i].file && d.images[i].reports == db.images[i].reports - (db.reports.Keys - d.reports.Keys)
    ensures d.nextComment == db.nextComment
    ensures Shrinks(db, d)
  {
    DeleteReports(db, set id | id in db.reports && db.reports[id].elder == e)
  }
}
