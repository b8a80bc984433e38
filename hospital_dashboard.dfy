/** The hospital dashboard's decisions: the client-side copy of the plan limit
    in front of the job form, the handling of the create-job response, the job
    list after a fetch, and the optimistic status change of an applicant. */
module HospitalDashboard {
  import opened Common
  import opened Seqs
  import opened Tables
  import opened ClientTypes
  import opened JobController
  import opened ApplicationController

  /** `!user?.subscription_tier || user.subscription_tier === 'free'`. */
  predicate IsFree(tier: Option<string>) {
    !Truthy(tier) || tier.value == FreeTier
  }

  predicate IsOpen(j: Job) { j.status == Open }

  /** "Nova Oportunidade": the upgrade prompt instead of the job form when the
      plan is free and the list already holds an open job. */
  predicate ShowsUpgrade(tier: Option<string>, jobs: seq<Job>) {
    IsFree(tier) && Count(jobs, IsOpen) >= 1
  }

  /** The client reads the tier as the server does. */
  lemma IsFreeMatchesServerTier(users: map<nat, User>, h: nat)
    requires h in users
    ensures IsFree(users[h].tier) <==> Tier(users, h) == FreeTier
  {
  }

  /** With the hospital's own list as the server returns it, the client gate
      refuses exactly when the server would refuse the job. */
  lemma UpgradeGateMirrorsQuota(users: map<nat, User>, jobs: seq<Job>, h: nat)
    requires h in users
    ensures ShowsUpgrade(users[h].tier, MyJobs(jobs, h)) <==> QuotaRefuses(users, jobs, h)
  {
    QuotaRule(users, jobs, h);
    var mine := MyJobs(jobs, h);
    if Count(mine, IsOpen) >= 1 {
      var j :| j in mine && IsOpen(j);
      assert j in jobs && j.hospitalId == h && j.status == Open;
    }
    if exists j :: j in jobs && j.hospitalId == h && j.status == Open {
      var j :| j in jobs && j.hospitalId == h && j.status == Open;
      assert j in mine && IsOpen(j);
    }
  }

  /** What `api.post('/jobs')` gives back: a response, or a thrown error. */
  datatype Response = Response(ok: bool, status: nat, code: Option<string>, message: string) | Thrown

  /** How `handleCreateJob` reacts. */
  datatype CreateOutcome = Created | LimitReached | Failed | Demo | ConnectionError

  function ClassifyCreate(res: Response): (o: CreateOutcome)
    ensures o == Created <==> res.Response? && res.ok
    ensures o == LimitReached <==> res.Response? && !res.ok && res.status == 403 && res.code == Some(LimitCode)
    ensures o == Failed <==> res.Response? && !res.ok && res.status == 403 && res.code != Some(LimitCode)
    ensures o == Demo <==> res.Response? && !res.ok && res.status != 403
    ensures o == ConnectionError <==> res.Thrown?
  {
    if res.Thrown? then ConnectionError
    else if res.ok then Created
    else if res.status == 403 then (if res.code == Some(LimitCode) then LimitReached else Failed)
    else Demo
  }

  /** The form closes in every case but a 403 other than the plan limit. */
  predicate ClosesForm(o: CreateOutcome) { o != Failed }

  /** Only the plan limit sends the user to the pricing page. */
  predicate GoesToPricing(o: CreateOutcome) { o == LimitReached }

  /** The response the server's `createJob` result becomes. */
  function ResponseOf(r: Result<Job>): Response {
    match r
    case Ok(_) => Response(true, 201, None, "")
    case Err(e) => Response(false, e.status, e.code, e.message)
  }

  /** Every refusal of `createJob` reaches the client as the plan-limit path,
      and every success as a created job. */
  lemma CreateResponseClassified(users: map<nat, User>, jobs: seq<Job>, h: nat, r: Result<Job>)
    requires r.Err? ==> r.error == HttpError(403, LimitMessage, Some(LimitCode))
    ensures ClassifyCreate(ResponseOf(r)) == (if r.Ok? then Created else LimitReached)
    ensures GoesToPricing(ClassifyCreate(ResponseOf(r))) <==> r.Err?
  {
  }

  /** What `api.get('/jobs/my-jobs')` gives back: a response whose body is an
      array (`Some`) or not (`None`), or a thrown error. */
  datatype FetchResult = Fetched(ok: bool, body: Option<seq<Job>>) | FetchThrown

  /** `fetchJobs`: the list shown and the job selected afterwards. An ok array
      replaces the list and selects its first job, leaving the selection alone
      when it is empty; anything else shows the demo list with its first job. */
  function AfterFetch(res: FetchResult, selected: Option<Job>, mock: seq<Job>): (r: (seq<Job>, Option<Job>))
    ensures res.Fetched? && res.ok && res.body.Some? ==> r.0 == res.body.value
    ensures res.Fetched? && res.ok && res.body.Some? && res.body.value != [] ==> r.1 == Some(res.body.value[0])
    ensures res.Fetched? && res.ok && res.body.Some? && res.body.value == [] ==> r.1 == selected
    ensures !(res.Fetched? && res.ok && res.body.Some?) ==>
      r.0 == mock && r.1 == (if mock == [] then None else Some(mock[0]))
  {
    if res.Fetched? && res.ok && res.body.Some? then
      (res.body.value, if |res.body.value| > 0 then Some(res.body.value[0]) else selected)
    else
      (mock, if |mock| > 0 then Some(mock[0]) else None)
  }

  /** After a successful non-empty fetch the selected job is one of the caller's own. */
  lemma FetchSelectsOwnJob(jobs: seq<Job>, h: nat, selected: Option<Job>, mock: seq<Job>)
    requires MyJobs(jobs, h) != []
    ensures var r := AfterFetch(Fetched(true, Some(MyJobs(jobs, h))), selected, mock);
      r.1.Some? && r.1.value in jobs && r.1.value.hospitalId == h
  {
    var mine := MyJobs(jobs, h);
    assert mine[0] in mine;
  }

  /** `handleStatusUpdate` before the request: the applicant with that id takes
      the new status, every other entry and the order stay. */
  function OptimisticStatus(rows: seq<ApplicantRow>, appId: nat, st: AppStatus): (r: seq<ApplicantRow>)
    ensures |r| == |rows|
    ensures forall i | 0 <= i < |rows| ::
      r[i] == if rows[i].application.id == appId
              then rows[i].(application := rows[i].application.(status := st)) else rows[i]
  {
    if rows == [] then []
    else
      [if rows[0].application.id == appId then rows[0].(application := rows[0].application.(status := st)) else rows[0]]
      + OptimisticStatus(rows[1..], appId, st)
  }

  /** The applications behind the rows. */
  function Applications(rows: seq<ApplicantRow>): (r: seq<Application>)
    ensures |r| == |rows|
    ensures forall i | 0 <= i < |rows| :: r[i] == rows[i].application
  {
    if rows == [] then [] else [rows[0].application] + Applications(rows[1..])
  }

  /** The optimistic change is the server's update seen through the rows: it
      agrees with what a successful request stores. */
  lemma OptimisticMatchesServer(rows: seq<ApplicantRow>, appId: nat, st: AppStatus)
    ensures Applications(OptimisticStatus(rows, appId, st)) == SetStatus(Applications(rows), appId, st)
  {
  }

  /** The optimistic change leaves other applicants' rows as they were. */
  lemma OptimisticKeepsOthers(rows: seq<ApplicantRow>, appId: nat, st: AppStatus, row: ApplicantRow)
    requires row.application.id != appId
    ensures row in OptimisticStatus(rows, appId, st) <==> row in rows
  {
    var r := OptimisticStatus(rows, appId, st);
    if row in r {
      var i :| 0 <= i < |r| && r[i] == row;
    }
    if row in rows {
      var i :| 0 <= i < |rows| && rows[i] == row;
      assert r[i] == row;
    }
  }
}
