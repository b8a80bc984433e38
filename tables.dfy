/** The five relational tables the API reads and writes, held in memory. Each
    row type follows its table's columns; `created_at` is a clock reading
    supplied by the caller, `date` a day number (the column's calendar order). */
module Tables {
  import opened Common

  datatype Role = Doctor | Nurse | Hospital | Admin

  /** The decoded token payload `{ id, role }`: who is calling. */
  datatype Actor = Actor(id: nat, role: Role)

  /** A row of `users`. The profile columns can hold SQL NULL; `specialties`
      and `experiences` hold JSON text. */
  datatype User = User(
    id: nat,
    name: Option<string>,
    email: string,
    password: string,
    role: Role,
    tier: Option<string>,
    isVerified: bool,
    avatarUrl: Option<string>,
    registration: Option<string>,
    specialty: Option<string>,
    location: Option<string>,
    phone: Option<string>,
    bio: Option<string>,
    specialties: Option<string>,
    experiences: Option<string>)

  datatype JobStatus = Open | Closed

  datatype Job = Job(
    id: nat,
    hospitalId: nat,
    title: string,
    description: string,
    location: string,
    date: nat,
    startTime: string,
    endTime: string,
    status: JobStatus,
    createdAt: nat)

  datatype AppStatus = Pending | Accepted | Rejected

  datatype Application = Application(id: nat, jobId: nat, doctorId: nat, status: AppStatus, createdAt: nat)

  datatype Message = Message(id: nat, senderId: nat, receiverId: nat, content: string, createdAt: nat, isRead: bool)

  /** A row of `documents`; the recipient and the month are whatever the
      upload form carried, possibly NULL. */
  datatype Document = Document(
    id: nat,
    uploaderId: nat,
    userId: Option<nat>,
    fileUrl: string,
    fileName: string,
    month: Option<string>,
    createdAt: nat)

  /** A `SERIAL` primary key: ids strictly increase in insertion order and all
      lie below the sequence's next value. */
  ghost predicate Serial<T>(rows: seq<T>, id: T -> nat, next: nat) {
    && (forall i, j | 0 <= i < j < |rows| :: id(rows[i]) < id(rows[j]))
    && (forall i | 0 <= i < |rows| :: id(rows[i]) < next)
  }

  /** Inserting a row that takes the sequence's next value keeps the key serial. */
  lemma SerialAppend<T>(rows: seq<T>, id: T -> nat, next: nat, x: T)
    requires Serial(rows, id, next) && id(x) == next
    ensures Serial(rows + [x], id, next + 1)
  {
  }

  function JobId(j: Job): nat { j.id }
  function ApplicationId(a: Application): nat { a.id }
  function MessageId(m: Message): nat { m.id }
  function DocumentId(d: Document): nat { d.id }

  /** The unique constraint on `applications (job_id, doctor_id)`: one
      application per doctor and job. */
  ghost predicate OnePerPair(apps: seq<Application>) {
    forall i, j | 0 <= i < j < |apps| ::
      !(apps[i].jobId == apps[j].jobId && apps[i].doctorId == apps[j].doctorId)
  }

  /** The applications table's invariant: a serial key and one row per pair. */
  ghost predicate ApplicationTable(apps: seq<Application>, next: nat) {
    Serial(apps, ApplicationId, next) && OnePerPair(apps)
  }

  /** Whether `doctorId` already holds an application for `jobId`. */
  predicate HasApplied(apps: seq<Application>, jobId: nat, doctorId: nat) {
    exists a | a in apps :: a.jobId == jobId && a.doctorId == doctorId
  }

  /** Appending an application for a pair not yet present keeps the pair unique. */
  lemma {:induction false} OnePerPairAppend(apps: seq<Application>, a: Application)
    requires OnePerPair(apps)
    requires !HasApplied(apps, a.jobId, a.doctorId)
    ensures OnePerPair(apps + [a])
  {
    var s := apps + [a];
    forall i, j | 0 <= i < j < |s|
      ensures !(s[i].jobId == s[j].jobId && s[i].doctorId == s[j].doctorId)
    {
      if j == |apps| {
        assert s[i] in apps;
      } else {
        assert s[i] == apps[i] && s[j] == apps[j];
      }
    }
  }

  /** The in-memory database: the tables and the next value of each key sequence. */
  class Database {
    var users: map<nat, User>
    var jobs: seq<Job>
    var applications: seq<Application>
    var messages: seq<Message>
    var documents: seq<Document>
    var nextJobId: nat
    var nextApplicationId: nat
    var nextMessageId: nat
    var nextDocumentId: nat

    /** Every user is stored under its own id. */
    ghost predicate UsersValid()
      reads this`users
    {
      forall id | id in users :: users[id].id == id
    }

    ghost predicate JobsValid()
      reads this`jobs, this`nextJobId
    {
      Serial(jobs, JobId, nextJobId)
    }

    ghost predicate ApplicationsValid()
      reads this`applications, this`nextApplicationId
    {
      ApplicationTable(applications, nextApplicationId)
    }

    ghost predicate MessagesValid()
      reads this`messages, this`nextMessageId
    {
      Serial(messages, MessageId, nextMessageId)
    }

    ghost predicate DocumentsValid()
      reads this`documents, this`nextDocumentId
    {
      Serial(documents, DocumentId, nextDocumentId)
    }

    /** Keys are serial in every table and the pair constraint holds. */
    ghost predicate Valid()
      reads this
    {
      UsersValid() && JobsValid() && ApplicationsValid() && MessagesValid() && DocumentsValid()
    }

    /** A database whose only content is the given users. */
    constructor (users: map<nat, User>)
      requires forall id | id in users :: users[id].id == id
      ensures Valid()
      ensures this.users == users
      ensures jobs == [] && applications == [] && messages == [] && documents == []
    {
      this.users := users;
      jobs, applications, messages, documents := [], [], [], [];
      nextJobId, nextApplicationId, nextMessageId, nextDocumentId := 1, 1, 1, 1;
    }
  }
}
