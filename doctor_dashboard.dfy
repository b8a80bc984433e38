/** The doctor dashboard's decisions: the search filter over the job board,
    the choice between fetched and demo data, the apply button, and the label
    of an application's status. */
module DoctorDashboard {
  import opened Common
  import opened Text
  import opened Seqs
  import opened Tables
  import opened JobController

  /** A board row is kept when the term occurs, ignoring case, in its title,
      its location or its hospital's name. */
  predicate JobMatches(row: BoardRow, term: string) {
    MatchesTerm(row.job.title, term) || MatchesTerm(row.job.location, term) ||
    (row.hospitalName.Some? && MatchesTerm(row.hospitalName.value, term))
  }

  function JobMatchesOf(term: string): BoardRow -> bool {
    (row: BoardRow) => JobMatches(row, term)
  }

  /** `filteredJobs`. */
  function FilterJobs(rows: seq<BoardRow>, term: string): (r: seq<BoardRow>)
    ensures forall row :: row in r <==> row in rows && JobMatches(row, term)
    ensures Subseq(r, rows)
  {
    Filter(rows, JobMatchesOf(term))
  }

  /** An empty search box shows every job, in order. */
  lemma EmptySearchKeepsAll(rows: seq<BoardRow>)
    ensures FilterJobs(rows, "") == rows
  {
    forall row | row in rows ensures JobMatches(row, "") {
      EmptyTermMatches(row.job.title);
    }
    FilterKeepsAll(rows, JobMatchesOf(""));
  }

  /** A job is found by its own title, whatever the case of the search. */
  lemma TitleFindsJob(rows: seq<BoardRow>, row: BoardRow)
    requires row in rows
    ensures row in FilterJobs(rows, row.job.title)
    ensures row in FilterJobs(rows, Lower(row.job.title))
  {
    TermMatchesItself(row.job.title);
    MatchIgnoresTermCase(row.job.title, row.job.title);
  }

  /** What a fetch of a list gives back: a body that is an array (`Some`) or
      not (`None`), or a thrown error. */
  datatype Fetch<T> = Body(data: Option<seq<T>>) | Thrown

  /** `fetchData`: fetched rows replace the list only when they form a
      non-empty array; an empty array, a non-array or an error shows the demo
      rows. The response status is not looked at. */
  function Shown<T>(res: Fetch<T>, mock: seq<T>): (r: seq<T>)
    ensures res.Body? && res.data.Some? && res.data.value != [] ==> r == res.data.value
    ensures !(res.Body? && res.data.Some? && res.data.value != []) ==> r == mock
  {
    if res.Body? && res.data.Some? && |res.data.value| > 0 then res.data.value else mock
  }

  /** An empty board from the server is never shown as empty: the demo rows take its place. */
  lemma EmptyBoardShowsDemo(users: map<nat, User>, jobs: seq<Job>, mock: seq<BoardRow>)
    requires forall j | j in jobs :: j.status == Closed
    ensures Shown(Body(Some(OpenJobs(users, jobs))), mock) == mock
  {
    assert Count(jobs, OnBoardOf(users)) == 0;
  }

  /** What the page does in response to a click. */
  datatype Effect = ShowToast(message: string) | Request(path: string)

  /** The number a string of decimal digits denotes, most significant first. */
  function DigitsValue(s: string): nat
    requires forall i | 0 <= i < |s| :: '0' <= s[i] <= '9'
  {
    if s == [] then 0 else DigitsValue(s[..|s| - 1]) * 10 + (s[|s| - 1] as int - '0' as int)
  }

  /** The decimal digits of `n`, as a template literal prints a number: no
      leading zero, and the digits denote `n`. */
  function DecimalText(n: nat): (s: string)
    ensures |s| >= 1
    ensures forall i | 0 <= i < |s| :: '0' <= s[i] <= '9'
    ensures DigitsValue(s) == n
    ensures n > 0 ==> s[0] != '0'
  {
    var d := ['0' + (n % 10) as char];
    if n < 10 then d
    else
      var r := DecimalText(n / 10) + d;
      assert r[..|r| - 1] == DecimalText(n / 10);
      r
  }

  /** `handleApply`: after confirmation a success toast, and no request at all. */
  function HandleApply(confirmed: bool, jobId: nat): (effects: seq<Effect>)
    ensures forall e | e in effects :: e.ShowToast?
    ensures confirmed <==> effects != []
  {
    if confirmed then [ShowToast("Candidatura enviada para vaga " + DecimalText(jobId) + " com sucesso!")] else []
  }

  /** The application status as the API sends it. */
  function StatusText(st: AppStatus): string {
    match st
    case Pending => "pending"
    case Accepted => "accepted"
    case Rejected => "rejected"
  }

  /** The badge text of an application. */
  function StatusLabel(status: string): (badge: string)
    ensures status == "accepted" ==> badge == "Aprovado"
    ensures status == "rejected" ==> badge == "Recusado"
    ensures status != "accepted" && status != "rejected" ==> badge == "Em Análise"
  {
    if status == "accepted" then "Aprovado" else if status == "rejected" then "Recusado" else "Em Análise"
  }

  /** Each status the API sends gets its own badge; a pending one reads "Em Análise". */
  lemma LabelsDistinguishStatuses(s1: AppStatus, s2: AppStatus)
    ensures StatusLabel(StatusText(s1)) == StatusLabel(StatusText(s2)) <==> s1 == s2
    ensures StatusLabel(StatusText(Pending)) == "Em Análise"
  {
  }
}
