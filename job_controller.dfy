/** The jobs controller: posting a job under the free-tier quota, the open-job
    board and a hospital's own jobs. */
module JobController {
  import opened Common
  import opened Seqs
  import opened Ordering
  import opened Tables
  import opened Auth

  const FreeTier := "free"
  const LimitCode := "LIMIT_REACHED"
  const LimitMessage := "Limite do plano Básico atingido (1 vaga ativa). Faça upgrade para o Pro para vagas ilimitadas."

  /** `userRes.rows[0]?.subscription_tier || 'free'`: the stored tier, or
      `free` when the row is missing or the column is NULL or empty. */
  function Tier(users: map<nat, User>, id: nat): (t: string)
    ensures t != ""
    ensures id in users && Truthy(users[id].tier) ==> t == users[id].tier.value
    ensures !(id in users && Truthy(users[id].tier)) ==> t == FreeTier
  {
    if id in users && Truthy(users[id].tier) then users[id].tier.value else FreeTier
  }

  predicate IsOpenJobOf(j: Job, hospitalId: nat) {
    j.hospitalId == hospitalId && j.status == Open
  }

  /** `SELECT COUNT(*) FROM jobs WHERE hospital_id = $1 AND status = 'open'`. */
  function OpenJobCount(jobs: seq<Job>, hospitalId: nat): nat {
    Count(jobs, (j: Job) => IsOpenJobOf(j, hospitalId))
  }

  /** The plan limit: a free hospital that already has an open job may not post another. */
  predicate QuotaRefuses(users: map<nat, User>, jobs: seq<Job>, hospitalId: nat) {
    Tier(users, hospitalId) == FreeTier && OpenJobCount(jobs, hospitalId) >= 1
  }

  /** Only this hospital's open jobs block it: its closed jobs and every other
      hospital's jobs do not. */
  lemma QuotaRule(users: map<nat, User>, jobs: seq<Job>, h: nat)
    ensures QuotaRefuses(users, jobs, h) <==>
      Tier(users, h) == FreeTier && exists j :: j in jobs && j.hospitalId == h && j.status == Open
  {
    if Tier(users, h) == FreeTier && exists j :: j in jobs && j.hospitalId == h && j.status == Open {
      var j :| j in jobs && j.hospitalId == h && j.status == Open;
      assert IsOpenJobOf(j, h);
    }
  }

  /** The request body of `POST /api/jobs`. */
  datatype JobRequest = JobRequest(
    title: string, description: string, location: string, date: nat, startTime: string, endTime: string)

  /** The row the insert creates: the caller as owner, the request's fields,
      and the column defaults (`open`, the current time). */
  function NewJob(id: nat, hospitalId: nat, req: JobRequest, now: nat): (j: Job)
    ensures j.id == id && j.hospitalId == hospitalId && j.status == Open && j.createdAt == now
    ensures j.title == req.title && j.description == req.description && j.location == req.location
    ensures j.date == req.date && j.startTime == req.startTime && j.endTime == req.endTime
  {
    Job(id, hospitalId, req.title, req.description, req.location, req.date, req.startTime, req.endTime, Open, now)
  }

  /** `createJob`: looks up the tier, counts the open jobs when the tier is
      free, and either refuses with `LIMIT_REACHED` or inserts the job. */
  method CreateJob(db: Database, caller: Actor, req: JobRequest, now: nat) returns (r: Result<Job>)
    requires db.Valid()
    requires AuthorizeRole([Hospital], Some(caller)).Next?
    modifies db
    ensures db.Valid()
    ensures r.Err? <==> QuotaRefuses(old(db.users), old(db.jobs), caller.id)
    ensures r.Err? ==> (r.error == HttpError(403, LimitMessage, Some(LimitCode)) && db.jobs == old(db.jobs) &&
      db.nextJobId == old(db.nextJobId))
    ensures r.Ok? ==> (r.value == NewJob(old(db.nextJobId), caller.id, req, now) && db.jobs == old(db.jobs) + [r.value] &&
      db.nextJobId == old(db.nextJobId) + 1)
    ensures unchanged(db`users, db`applications, db`messages, db`documents)
    ensures unchanged(db`nextApplicationId, db`nextMessageId, db`nextDocumentId)
  {
    var tier := Tier(db.users, caller.id);
    if tier == FreeTier {
      var activeJobs := OpenJobCount(db.jobs, caller.id);
      if activeJobs >= 1 {
        return Err(HttpError(403, LimitMessage, Some(LimitCode)));
      }
    }
    var job := NewJob(db.nextJobId, caller.id, req, now);
    SerialAppend(db.jobs, JobId, db.nextJobId, job);
    db.jobs := db.jobs + [job];
    db.nextJobId := db.nextJobId + 1;
    r := Ok(job);
  }

  /** Every free hospital has at most one open job. */
  ghost predicate WithinFreeCap(users: map<nat, User>, jobs: seq<Job>) {
    forall h :: Tier(users, h) == FreeTier ==> OpenJobCount(jobs, h) <= 1
  }

  /** A job insert changes only its own hospital's open-job count, by one. */
  lemma {:induction false} OpenJobCountAppend(jobs: seq<Job>, j: Job, h: nat)
    ensures OpenJobCount(jobs + [j], h) == OpenJobCount(jobs, h) + (if IsOpenJobOf(j, h) then 1 else 0)
  {
    FilterAppend(jobs, [j], (x: Job) => IsOpenJobOf(x, h));
  }

  /** An insert that the quota let through keeps every free hospital at one
      open job or fewer (requests taken one at a time). */
  lemma CreateKeepsFreeCap(users: map<nat, User>, jobs: seq<Job>, h: nat, req: JobRequest, id: nat, now: nat)
    requires WithinFreeCap(users, jobs)
    requires !QuotaRefuses(users, jobs, h)
    ensures WithinFreeCap(users, jobs + [NewJob(id, h, req, now)])
  {
    var j := NewJob(id, h, req, now);
    forall h' | Tier(users, h') == FreeTier ensures OpenJobCount(jobs + [j], h') <= 1 {
      OpenJobCountAppend(jobs, j, h');
    }
  }

  /** A free hospital with an open job stays refused however many times it
      retries, since a refusal inserts nothing. */
  lemma SecondOpenJobRefused(users: map<nat, User>, jobs: seq<Job>, h: nat, req: JobRequest, id: nat, now: nat)
    requires Tier(users, h) == FreeTier
    ensures QuotaRefuses(users, jobs + [NewJob(id, h, req, now)], h)
  {
    OpenJobCountAppend(jobs, NewJob(id, h, req, now), h);
  }

  function JobDate(j: Job): int { j.date }
  function JobNewestFirst(j: Job): int { -(j.createdAt as int) }

  /** A row of the job board: the job and its hospital's name. */
  datatype BoardRow = BoardRow(job: Job, hospitalName: Option<string>)

  predicate OnBoard(users: map<nat, User>, j: Job) {
    j.status == Open && j.hospitalId in users
  }

  /** The board's `WHERE` clause as a row predicate. */
  function OnBoardOf(users: map<nat, User>): Job -> bool {
    (j: Job) => OnBoard(users, j)
  }

  /** Attaches to each job its hospital's name (the `JOIN users`). */
  function WithHospitalNames(users: map<nat, User>, s: seq<Job>): (r: seq<BoardRow>)
    requires forall j | j in s :: j.hospitalId in users
    ensures |r| == |s|
    ensures forall i | 0 <= i < |s| :: r[i] == BoardRow(s[i], users[s[i].hospitalId].name)
  {
    if s == [] then [] else [BoardRow(s[0], users[s[0].hospitalId].name)] + WithHospitalNames(users, s[1..])
  }

  /** The joined rows are exactly the listed jobs, each with its hospital's name. */
  lemma WithHospitalNamesRows(users: map<nat, User>, s: seq<Job>, row: BoardRow)
    requires forall j | j in s :: j.hospitalId in users
    ensures row in WithHospitalNames(users, s) <==>
      row.job in s && row.hospitalName == users[row.job.hospitalId].name
  {
    var r := WithHospitalNames(users, s);
    if row in r {
      var i :| 0 <= i < |r| && r[i] == row;
    }
    if row.job in s && row.hospitalName == users[row.job.hospitalId].name {
      var i :| 0 <= i < |s| && s[i] == row.job;
      assert r[i] == row;
    }
  }

  /** `getJobs`: the open jobs joined with their hospital, by date ascending. */
  function OpenJobs(users: map<nat, User>, jobs: seq<Job>): (r: seq<BoardRow>)
    ensures forall row: BoardRow :: row in r <==>
      row.job in jobs && OnBoard(users, row.job) && row.hospitalName == users[row.job.hospitalId].name
    ensures forall i, k | 0 <= i < k < |r| :: r[i].job.date <= r[k].job.date
    ensures |r| == Count(jobs, OnBoardOf(users))
  {
    BoardCount(users, jobs);
    BoardMembers(users, jobs);
    BoardSorted(users, jobs);
    WithHospitalNames(users, Select(jobs, OnBoardOf(users), JobDate))
  }

  /** The board holds exactly the open jobs with a known hospital, named. */
  lemma BoardMembers(users: map<nat, User>, jobs: seq<Job>)
    ensures forall j | j in Select(jobs, OnBoardOf(users), JobDate) :: j.hospitalId in users
    ensures forall row: BoardRow :: row in WithHospitalNames(users, Select(jobs, OnBoardOf(users), JobDate)) <==>
      row.job in jobs && OnBoard(users, row.job) && row.hospitalName == users[row.job.hospitalId].name
  {
    forall row: BoardRow
      ensures row in WithHospitalNames(users, Select(jobs, OnBoardOf(users), JobDate)) <==>
        row.job in jobs && OnBoard(users, row.job) && row.hospitalName == users[row.job.hospitalId].name
    {
      BoardRows(users, jobs, row);
    }
  }

  /** The board is ordered by date. */
  lemma BoardSorted(users: map<nat, User>, jobs: seq<Job>)
    ensures forall j | j in Select(jobs, OnBoardOf(users), JobDate) :: j.hospitalId in users
    ensures var r := WithHospitalNames(users, Select(jobs, OnBoardOf(users), JobDate));
      forall i, k | 0 <= i < k < |r| :: r[i].job.date <= r[k].job.date
  {
    var s := Select(jobs, OnBoardOf(users), JobDate);
    assert forall i, k | 0 <= i < k < |s| :: JobDate(s[i]) <= JobDate(s[k]);
  }

  /** The board's query keeps as many jobs as are open with a known hospital. */
  lemma BoardCount(users: map<nat, User>, jobs: seq<Job>)
    ensures |Select(jobs, OnBoardOf(users), JobDate)| == Count(jobs, OnBoardOf(users))
  {
    var s := Select(jobs, OnBoardOf(users), JobDate);
    assert |s| == |multiset(s)|;
  }

  /** The board's rows are the open jobs with a known hospital, named. */
  lemma BoardRows(users: map<nat, User>, jobs: seq<Job>, row: BoardRow)
    ensures forall j | j in Select(jobs, OnBoardOf(users), JobDate) :: j.hospitalId in users
    ensures row in WithHospitalNames(users, Select(jobs, OnBoardOf(users), JobDate)) <==>
      row.job in jobs && OnBoard(users, row.job) && row.hospitalName == users[row.job.hospitalId].name
  {
    WithHospitalNamesRows(users, Select(jobs, OnBoardOf(users), JobDate), row);
  }

  /** `getMyJobs`: the caller's jobs of every status, newest first. */
  function MyJobs(jobs: seq<Job>, hospitalId: nat): (r: seq<Job>)
    ensures forall j :: j in r <==> j in jobs && j.hospitalId == hospitalId
    ensures forall i, k | 0 <= i < k < |r| :: r[i].createdAt >= r[k].createdAt
    ensures multiset(r) == multiset(Filter(jobs, (j: Job) => j.hospitalId == hospitalId))
  {
    Select(jobs, (j: Job) => j.hospitalId == hospitalId, JobNewestFirst)
  }

  /** A job a hospital has just posted appears in its own list with exactly the
      fields it sent and status `open`. */
  lemma PostedJobListed(jobs: seq<Job>, h: nat, req: JobRequest, id: nat, now: nat)
    ensures var j := NewJob(id, h, req, now);
      j in MyJobs(jobs + [j], h) && j.status == Open &&
      j.title == req.title && j.location == req.location && j.date == req.date &&
      j.startTime == req.startTime && j.endTime == req.endTime
  {
    var j := NewJob(id, h, req, now);
    assert j in jobs + [j];
  }

  /** A job with a known hospital is on the board exactly while it is open. */
  lemma BoardShowsOpenJobs(users: map<nat, User>, jobs: seq<Job>, j: Job)
    requires j in jobs && j.hospitalId in users
    ensures BoardRow(j, users[j.hospitalId].name) in OpenJobs(users, jobs) <==> j.status == Open
  {
  }
}
