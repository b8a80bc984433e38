/** The applications controller: a doctor applies for a job, a hospital accepts
    or rejects an application on one of its own jobs, and the two listings. */
module ApplicationController {
  import opened Common
  import opened Seqs
  import opened Ordering
  import opened Tables
  import opened Auth

  const AlreadyApplied := "Already applied for this job"
  const InvalidStatus := "Invalid status"
  const ApplicationNotOwned := "Not authorized or application not found"
  const JobNotOwned := "Not authorized or job not found"

  /** `applyForJob`: inserts a pending application of the caller for `jobId`.
      The unique constraint on `(job_id, doctor_id)` turns a second application
      for the same pair into 400. Whether the job is still open is not looked
      at. The key sequence advances even when the insert is refused, as a
      `SERIAL` column's sequence does. */
  method ApplyForJob(db: Database, caller: Actor, jobId: nat, now: nat) returns (r: Result<Application>)
    requires db.Valid()
    requires AuthorizeRole([Doctor], Some(caller)).Next?
    modifies db
    ensures db.Valid()
    ensures r.Err? <==> HasApplied(old(db.applications), jobId, caller.id)
    ensures r.Err? ==> r.error == Fail(400, AlreadyApplied) && db.applications == old(db.applications)
    ensures r.Ok? ==>
      r.value == Application(old(db.nextApplicationId), jobId, caller.id, Pending, now) &&
      db.applications == old(db.applications) + [r.value]
    ensures db.nextApplicationId == old(db.nextApplicationId) + 1
    ensures unchanged(db`users, db`jobs, db`messages, db`documents, db`nextJobId, db`nextMessageId, db`nextDocumentId)
  {
    var id := db.nextApplicationId;
    db.nextApplicationId := db.nextApplicationId + 1;
    if HasApplied(db.applications, jobId, caller.id) {
      return Err(Fail(400, AlreadyApplied));
    }
    var application := Application(id, jobId, caller.id, Pending, now);
    SerialAppend(db.applications, ApplicationId, id, application);
    OnePerPairAppend(db.applications, application);
    db.applications := db.applications + [application];
    r := Ok(application);
  }

  /** A doctor who has applied once is refused on every further attempt, so the
      table never holds the same pair twice. */
  lemma ApplyTwiceRefused(apps: seq<Application>, jobId: nat, doctorId: nat, id: nat, now: nat)
    ensures HasApplied(apps + [Application(id, jobId, doctorId, Pending, now)], jobId, doctorId)
  {
    assert Application(id, jobId, doctorId, Pending, now) in apps + [Application(id, jobId, doctorId, Pending, now)];
  }

  /** The body's `status`: only `accepted` and `rejected` are decisions. */
  function ParseDecision(status: Option<string>): (d: Option<AppStatus>)
    ensures d == Some(Accepted) <==> status == Some("accepted")
    ensures d == Some(Rejected) <==> status == Some("rejected")
    ensures d != Some(Pending)
  {
    if status == Some("accepted") then Some(Accepted)
    else if status == Some("rejected") then Some(Rejected)
    else None
  }

  /** The ownership query: application `appId` exists and its job is one of
      hospital `h`'s. A missing application and another hospital's one look
      the same. */
  predicate OwnsApplication(apps: seq<Application>, jobs: seq<Job>, appId: nat, h: nat) {
    exists a, j | a in apps && j in jobs :: a.id == appId && a.jobId == j.id && j.hospitalId == h
  }

  /** `UPDATE applications SET status = st WHERE id = id`. */
  function SetStatus(apps: seq<Application>, id: nat, st: AppStatus): (r: seq<Application>)
    ensures |r| == |apps|
    ensures forall i | 0 <= i < |apps| ::
      r[i] == if apps[i].id == id then apps[i].(status := st) else apps[i]
  {
    if apps == [] then []
    else [if apps[0].id == id then apps[0].(status := st) else apps[0]] + SetStatus(apps[1..], id, st)
  }

  /** The update touches no key: ids, jobs and doctors stay as they were, so the
      key stays serial and each pair stays unique. */
  lemma SetStatusKeepsKeys(apps: seq<Application>, id: nat, st: AppStatus, next: nat)
    requires ApplicationTable(apps, next)
    ensures ApplicationTable(SetStatus(apps, id, st), next)
  {
    var r := SetStatus(apps, id, st);
    assert forall i | 0 <= i < |r| :: r[i].id == apps[i].id && r[i].jobId == apps[i].jobId && r[i].doctorId == apps[i].doctorId;
  }

  /** Every other application is left exactly as it was. */
  lemma SetStatusOthers(apps: seq<Application>, id: nat, st: AppStatus, a: Application)
    requires a.id != id
    ensures a in SetStatus(apps, id, st) <==> a in apps
  {
    var r := SetStatus(apps, id, st);
    if a in r {
      var i :| 0 <= i < |r| && r[i] == a;
    }
    if a in apps {
      var i :| 0 <= i < |apps| && apps[i] == a;
      assert r[i] == a;
    }
  }

  /** No guard on the current status: a later decision overwrites an earlier one. */
  lemma SetStatusLastWins(apps: seq<Application>, id: nat, s1: AppStatus, s2: AppStatus)
    ensures SetStatus(SetStatus(apps, id, s1), id, s2) == SetStatus(apps, id, s2)
  {
  }

  /** Repeating the same decision changes nothing more. */
  lemma SetStatusIdempotent(apps: seq<Application>, id: nat, st: AppStatus)
    ensures SetStatus(SetStatus(apps, id, st), id, st) == SetStatus(apps, id, st)
  {
    SetStatusLastWins(apps, id, st, st);
  }

  /** The first row with key `id`; under a serial key, the only one. */
  function ApplicationById(apps: seq<Application>, id: nat): (r: Option<Application>)
    ensures r.Some? ==> r.value in apps && r.value.id == id
    ensures r.None? <==> forall a | a in apps :: a.id != id
  {
    if apps == [] then None
    else if apps[0].id == id then Some(apps[0])
    else ApplicationById(apps[1..], id)
  }

  /** After the update the row with that key is found again, carrying the new status. */
  lemma SetStatusFinds(apps: seq<Application>, id: nat, st: AppStatus, a: Application)
    requires a in apps && a.id == id
    ensures ApplicationById(SetStatus(apps, id, st), id).Some?
    ensures ApplicationById(SetStatus(apps, id, st), id).value.status == st
  {
    var r := SetStatus(apps, id, st);
    var i :| 0 <= i < |apps| && apps[i] == a;
    assert r[i].id == id;
    var x := ApplicationById(r, id).value;
    var k :| 0 <= k < |r| && r[k] == x;
  }

  /** `updateApplicationStatus`: 400 for anything but a decision, checked
      first; then 403 unless the caller owns the application's job; then the
      one row's status is overwritten and returned. */
  method UpdateApplicationStatus(db: Database, caller: Actor, appId: nat, status: Option<string>)
    returns (r: Result<Application>)
    requires db.Valid()
    requires AuthorizeRole([Hospital], Some(caller)).Next?
    modifies db
    ensures db.Valid()
    ensures ParseDecision(status).None? ==> r == Err(Fail(400, InvalidStatus))
    ensures ParseDecision(status).Some? && !OwnsApplication(old(db.applications), db.jobs, appId, caller.id) ==>
      r == Err(Fail(403, ApplicationNotOwned))
    ensures r.Ok? <==> ParseDecision(status).Some? && OwnsApplication(old(db.applications), db.jobs, appId, caller.id)
    ensures r.Err? ==> db.applications == old(db.applications)
    ensures r.Ok? ==>
      db.applications == SetStatus(old(db.applications), appId, ParseDecision(status).value) &&
      r.value in db.applications && r.value.id == appId && r.value.status == ParseDecision(status).value
    ensures unchanged(db`users, db`jobs, db`messages, db`documents)
    ensures unchanged(db`nextJobId, db`nextApplicationId, db`nextMessageId, db`nextDocumentId)
  {
    var decision := ParseDecision(status);
    if decision.None? {
      return Err(Fail(400, InvalidStatus));
    }
    if !OwnsApplication(db.applications, db.jobs, appId, caller.id) {
      return Err(Fail(403, ApplicationNotOwned));
    }
    var updated;
    updated := StatusUpdated(db.applications, db.jobs, appId, caller.id, decision.value, db.nextApplicationId);
    db.applications := SetStatus(db.applications, appId, decision.value);
    r := Ok(updated);
  }

  /** The row `UPDATE ... RETURNING *` gives back when the caller owns the
      application: found again after the update, with the new status. */
  function StatusUpdated(apps: seq<Application>, jobs: seq<Job>, appId: nat, h: nat, st: AppStatus, next: nat): (a: Application)
    requires OwnsApplication(apps, jobs, appId, h) && ApplicationTable(apps, next)
    ensures ApplicationTable(SetStatus(apps, appId, st), next)
    ensures a in SetStatus(apps, appId, st) && a.id == appId && a.status == st
  {
    var x, j :| x in apps && j in jobs && x.id == appId && x.jobId == j.id && j.hospitalId == h;
    SetStatusKeepsKeys(apps, appId, st, next);
    SetStatusFinds(apps, appId, st, x);
    ApplicationById(SetStatus(apps, appId, st), appId).value
  }

  /** A row of the doctor's own list: the application with its job's details
      and the hospital's name. */
  datatype MyApplicationRow = MyApplicationRow(
    application: Application,
    title: string,
    date: nat,
    startTime: string,
    endTime: string,
    location: string,
    hospitalName: Option<string>)

  /** The first job with key `id`; under a serial key, the only one. */
  function JobById(jobs: seq<Job>, id: nat): (r: Option<Job>)
    ensures r.Some? ==> r.value in jobs && r.value.id == id
    ensures r.None? <==> forall j | j in jobs :: j.id != id
  {
    if jobs == [] then None
    else if jobs[0].id == id then Some(jobs[0])
    else JobById(jobs[1..], id)
  }

  /** One application through `WHERE doctor_id = d`, `JOIN jobs` and `JOIN users`. */
  function MyApplicationJoin(users: map<nat, User>, jobs: seq<Job>, d: nat, a: Application): Option<MyApplicationRow> {
    if a.doctorId != d then None
    else match JobById(jobs, a.jobId)
      case None => None
      case Some(j) =>
        if j.hospitalId !in users then None
        else Some(MyApplicationRow(a, j.title, j.date, j.startTime, j.endTime, j.location, users[j.hospitalId].name))
  }

  function MyApplicationQuery(users: map<nat, User>, jobs: seq<Job>, d: nat): Application -> Option<MyApplicationRow> {
    (a: Application) => MyApplicationJoin(users, jobs, d, a)
  }

  predicate JoinsMine(users: map<nat, User>, jobs: seq<Job>, d: nat, a: Application) {
    MyApplicationJoin(users, jobs, d, a).Some?
  }

  function JoinsMineOf(users: map<nat, User>, jobs: seq<Job>, d: nat): Application -> bool {
    (a: Application) => JoinsMine(users, jobs, d, a)
  }

  function MyRowNewestFirst(row: MyApplicationRow): int { -(row.application.createdAt as int) }

  /** `getMyApplications`: the caller's applications whose job and hospital
      exist, newest first. */
  function MyApplications(users: map<nat, User>, jobs: seq<Job>, apps: seq<Application>, d: nat)
    : (r: seq<MyApplicationRow>)
    ensures forall row: MyApplicationRow :: row in r <==>
      row.application in apps && MyApplicationJoin(users, jobs, d, row.application) == Some(row)
    ensures forall i, k | 0 <= i < k < |r| :: r[i].application.createdAt >= r[k].application.createdAt
    ensures |r| == Count(apps, JoinsMineOf(users, jobs, d))
  {
    MyListMembers(users, jobs, apps, d);
    MyListCount(users, jobs, apps, d);
    MyListSorted(users, jobs, apps, d);
    SortBy(FilterMap(apps, MyApplicationQuery(users, jobs, d)), MyRowNewestFirst)
  }

  /** Sorting on the negated creation time puts the newest first. */
  lemma MyListSorted(users: map<nat, User>, jobs: seq<Job>, apps: seq<Application>, d: nat)
    ensures var r := SortBy(FilterMap(apps, MyApplicationQuery(users, jobs, d)), MyRowNewestFirst);
      forall i, k | 0 <= i < k < |r| :: r[i].application.createdAt >= r[k].application.createdAt
  {
    var r := SortBy(FilterMap(apps, MyApplicationQuery(users, jobs, d)), MyRowNewestFirst);
    assert forall i, k | 0 <= i < k < |r| :: MyRowNewestFirst(r[i]) <= MyRowNewestFirst(r[k]);
  }

  /** The join keeps the application it started from. */
  lemma MyJoinKeepsApplication(users: map<nat, User>, jobs: seq<Job>, d: nat, a: Application)
    ensures MyApplicationJoin(users, jobs, d, a).Some? ==> MyApplicationJoin(users, jobs, d, a).value.application == a
  {
  }

  /** A row comes out of the join exactly when its own application, joined, gives it. */
  lemma MyRowMember(users: map<nat, User>, jobs: seq<Job>, apps: seq<Application>, d: nat, row: MyApplicationRow)
    ensures row in FilterMap(apps, MyApplicationQuery(users, jobs, d)) <==>
      row.application in apps && MyApplicationJoin(users, jobs, d, row.application) == Some(row)
  {
    var q := MyApplicationQuery(users, jobs, d);
    FilterMapMember(apps, q, row);
    if row in FilterMap(apps, q) {
      var x :| x in apps && q(x) == Some(row);
      MyJoinKeepsApplication(users, jobs, d, x);
    }
    if row.application in apps && MyApplicationJoin(users, jobs, d, row.application) == Some(row) {
      assert q(row.application) == Some(row);
    }
  }

  /** The sorted join holds exactly the caller's joined applications. */
  lemma MyListMembers(users: map<nat, User>, jobs: seq<Job>, apps: seq<Application>, d: nat)
    ensures forall row: MyApplicationRow ::
      row in SortBy(FilterMap(apps, MyApplicationQuery(users, jobs, d)), MyRowNewestFirst) <==>
      row.application in apps && MyApplicationJoin(users, jobs, d, row.application) == Some(row)
  {
    var rows := FilterMap(apps, MyApplicationQuery(users, jobs, d));
    forall row: MyApplicationRow
      ensures row in SortBy(rows, MyRowNewestFirst) <==>
        row.application in apps && MyApplicationJoin(users, jobs, d, row.application) == Some(row)
    {
      SortByMember(rows, MyRowNewestFirst, row);
      MyRowMember(users, jobs, apps, d, row);
    }
  }

  /** One row per application of the caller whose job and hospital exist. */
  lemma MyListCount(users: map<nat, User>, jobs: seq<Job>, apps: seq<Application>, d: nat)
    ensures |SortBy(FilterMap(apps, MyApplicationQuery(users, jobs, d)), MyRowNewestFirst)| ==
      Count(apps, JoinsMineOf(users, jobs, d))
  {
    var rows := FilterMap(apps, MyApplicationQuery(users, jobs, d));
    var r := SortBy(rows, MyRowNewestFirst);
    assert |r| == |multiset(r)| == |multiset(rows)| == |rows|;
    FilterMapLength(apps, MyApplicationQuery(users, jobs, d), JoinsMineOf(users, jobs, d));
  }

  /** Every row of the list is the caller's. */
  lemma MyApplicationsAreMine(users: map<nat, User>, jobs: seq<Job>, apps: seq<Application>, d: nat, row: MyApplicationRow)
    requires row in MyApplications(users, jobs, apps, d)
    ensures row.application.doctorId == d && row.application in apps
  {
  }

  /** An application just made for a job whose hospital exists shows up, pending,
      in the doctor's list with the job's title and date. */
  lemma AppliedIsListed(users: map<nat, User>, jobs: seq<Job>, apps: seq<Application>, j: Job, d: nat, id: nat, now: nat)
    requires j in jobs && j.hospitalId in users
    requires forall k | k in jobs :: k.id == j.id ==> k == j
    ensures MyApplicationRow(Application(id, j.id, d, Pending, now), j.title, j.date, j.startTime, j.endTime,
      j.location, users[j.hospitalId].name) in MyApplications(users, jobs, apps + [Application(id, j.id, d, Pending, now)], d)
  {
    var a := Application(id, j.id, d, Pending, now);
    var row := MyApplicationRow(a, j.title, j.date, j.startTime, j.endTime, j.location, users[j.hospitalId].name);
    assert JobById(jobs, j.id) == Some(j);
    assert MyApplicationJoin(users, jobs, d, a) == Some(row);
    assert a in apps + [a];
  }

  /** A row of a job's applicant list: the application with the doctor's name and email. */
  datatype ApplicantRow = ApplicantRow(application: Application, doctorName: Option<string>, doctorEmail: string)

  /** One application through `WHERE job_id = jobId` and `JOIN users`. */
  function ApplicantJoin(users: map<nat, User>, jobId: nat, a: Application): Option<ApplicantRow> {
    if a.jobId != jobId || a.doctorId !in users then None
    else Some(ApplicantRow(a, users[a.doctorId].name, users[a.doctorId].email))
  }

  function ApplicantQuery(users: map<nat, User>, jobId: nat): Application -> Option<ApplicantRow> {
    (a: Application) => ApplicantJoin(users, jobId, a)
  }

  /** The joined rows are exactly the job's applications whose doctor exists. */
  lemma ApplicantMember(users: map<nat, User>, apps: seq<Application>, jobId: nat, row: ApplicantRow)
    ensures row in FilterMap(apps, ApplicantQuery(users, jobId)) <==>
      row.application in apps && row.application.jobId == jobId && row.application.doctorId in users &&
      row.doctorName == users[row.application.doctorId].name &&
      row.doctorEmail == users[row.application.doctorId].email
  {
    FilterMapMember(apps, ApplicantQuery(users, jobId), row);
  }

  function ApplicantOldestFirst(row: ApplicantRow): int { row.application.createdAt }

  /** The ownership query: job `jobId` exists and belongs to hospital `h`. */
  predicate OwnsJob(jobs: seq<Job>, jobId: nat, h: nat) {
    exists j | j in jobs :: j.id == jobId && j.hospitalId == h
  }

  /** `getJobApplications`: 403 unless the caller owns the job; otherwise the
      job's applications whose doctor exists, oldest first. */
  function JobApplications(users: map<nat, User>, jobs: seq<Job>, apps: seq<Application>, jobId: nat, h: nat)
    : (r: Result<seq<ApplicantRow>>)
    ensures r.Err? <==> !OwnsJob(jobs, jobId, h)
    ensures r.Err? ==> r.error == Fail(403, JobNotOwned)
    ensures r.Ok? ==> forall row: ApplicantRow :: row in r.value <==>
      row.application in apps && row.application.jobId == jobId && row.application.doctorId in users &&
      row.doctorName == users[row.application.doctorId].name &&
      row.doctorEmail == users[row.application.doctorId].email
    ensures r.Ok? ==> forall i, k | 0 <= i < k < |r.value| ::
      r.value[i].application.createdAt <= r.value[k].application.createdAt
  {
    if !OwnsJob(jobs, jobId, h) then Err(Fail(403, JobNotOwned))
    else
      var rows := FilterMap(apps, ApplicantQuery(users, jobId));
      var r := SortBy(rows, ApplicantOldestFirst);
      forall row: ApplicantRow
        ensures row in r <==>
          row.application in apps && row.application.jobId == jobId && row.application.doctorId in users &&
          row.doctorName == users[row.application.doctorId].name &&
          row.doctorEmail == users[row.application.doctorId].email
      {
        SortByMember(rows, ApplicantOldestFirst, row);
        ApplicantMember(users, apps, jobId, row);
      }
      assert forall i, k | 0 <= i < k < |r| :: ApplicantOldestFirst(r[i]) <= ApplicantOldestFirst(r[k]);
      Ok(r)
  }

  /** Another hospital never sees a job's applicants, whoever applied. */
  lemma OtherHospitalRefused(users: map<nat, User>, jobs: seq<Job>, apps: seq<Application>, j: Job, h: nat)
    requires j in jobs && j.hospitalId != h
    requires forall k | k in jobs :: k.id == j.id ==> k == j
    ensures JobApplications(users, jobs, apps, j.id, h) == Err(Fail(403, JobNotOwned))
  {
  }
}
