/** The document routes: a hospital (or an admin) sends a file to a
    professional; each side lists what it received or sent; a hospital lists
    the professionals it may send to. */
module DocumentRoutes {
  import opened Common
  import opened Ordering
  import opened Seqs
  import opened Tables
  import opened MessageRoutes

  /** What the upload middleware hands the handler: the name it stored the
      file under, and the name the file had on the sender's machine. */
  datatype UploadedFile = UploadedFile(filename: string, originalName: string)

  const NoFileUploaded := "No file uploaded"
  const Unauthorized := "Unauthorized"
  const DocumentsPath := "/uploads/documents/"

  /** The stored title: the `file_name` field when it is truthy, else the
      file's original name. */
  function DocumentTitle(fileName: Option<string>, file: UploadedFile): (t: string)
    ensures Truthy(fileName) ==> t == fileName.value
    ensures !Truthy(fileName) ==> t == file.originalName
  {
    OrElse(fileName, Some(file.originalName)).value
  }

  /** `POST /upload`: 400 without a file, checked before the role; 403 unless
      the caller is a hospital or an admin; otherwise the document row. The
      recipient and the month are stored as sent, unchecked; the title
      defaults to the file's original name. */
  method UploadDocument(db: Database, caller: Actor, file: Option<UploadedFile>, userId: Option<nat>,
                        month: Option<string>, fileName: Option<string>, now: nat)
    returns (r: Result<Document>)
    requires db.Valid()
    modifies db
    ensures db.Valid()
    ensures file.None? ==> r == Err(Fail(400, NoFileUploaded))
    ensures file.Some? && caller.role !in {Hospital, Admin} ==> r == Err(Fail(403, Unauthorized))
    ensures r.Ok? <==> file.Some? && caller.role in {Hospital, Admin}
    ensures r.Err? ==> db.documents == old(db.documents) && db.nextDocumentId == old(db.nextDocumentId)
    ensures r.Ok? ==>
      r.value.id == old(db.nextDocumentId) && r.value.uploaderId == caller.id && r.value.userId == userId &&
      r.value.fileUrl == DocumentsPath + file.value.filename && r.value.month == month &&
      r.value.fileName == DocumentTitle(fileName, file.value) &&
      r.value.createdAt == now &&
      db.documents == old(db.documents) + [r.value] && db.nextDocumentId == old(db.nextDocumentId) + 1
    ensures unchanged(db`users, db`jobs, db`applications, db`messages)
    ensures unchanged(db`nextJobId, db`nextApplicationId, db`nextMessageId)
  {
    if file.None? {
      return Err(Fail(400, NoFileUploaded));
    }
    if caller.role != Hospital && caller.role != Admin {
      return Err(Fail(403, Unauthorized));
    }
    var fileUrl := DocumentsPath + file.value.filename;
    var title := DocumentTitle(fileName, file.value);
    var d := Document(db.nextDocumentId, caller.id, userId, fileUrl, title, month, now);
    SerialAppend(db.documents, DocumentId, db.nextDocumentId, d);
    db.documents := db.documents + [d];
    db.nextDocumentId := db.nextDocumentId + 1;
    r := Ok(d);
  }

  /** A row of `/mine`: the document and the name of whoever sent it. */
  datatype ReceivedRow = ReceivedRow(document: Document, uploaderName: Option<string>)

  /** A row of `/sent`: the document and the name of its recipient. */
  datatype SentRow = SentRow(document: Document, recipientName: Option<string>)

  /** One document through `WHERE d.user_id = me` and `JOIN users ON d.uploader_id`. */
  function ReceivedJoin(users: map<nat, User>, me: nat, d: Document): Option<ReceivedRow> {
    if d.userId == Some(me) && d.uploaderId in users then Some(ReceivedRow(d, users[d.uploaderId].name)) else None
  }

  function ReceivedQuery(users: map<nat, User>, me: nat): Document -> Option<ReceivedRow> {
    (d: Document) => ReceivedJoin(users, me, d)
  }

  /** One document through `WHERE d.uploader_id = me` and `JOIN users ON d.user_id`:
      a document sent to nobody has no row. */
  function SentJoin(users: map<nat, User>, me: nat, d: Document): Option<SentRow> {
    if d.uploaderId == me && d.userId.Some? && d.userId.value in users
    then Some(SentRow(d, users[d.userId.value].name)) else None
  }

  function SentQuery(users: map<nat, User>, me: nat): Document -> Option<SentRow> {
    (d: Document) => SentJoin(users, me, d)
  }

  /** The received rows are exactly the caller's documents whose sender exists. */
  lemma ReceivedMember(users: map<nat, User>, docs: seq<Document>, me: nat, row: ReceivedRow)
    ensures row in FilterMap(docs, ReceivedQuery(users, me)) <==>
      row.document in docs && row.document.userId == Some(me) && row.document.uploaderId in users &&
      row.uploaderName == users[row.document.uploaderId].name
  {
    FilterMapMember(docs, ReceivedQuery(users, me), row);
  }

  /** The sent rows are exactly the caller's uploads whose recipient exists. */
  lemma SentMember(users: map<nat, User>, docs: seq<Document>, me: nat, row: SentRow)
    ensures row in FilterMap(docs, SentQuery(users, me)) <==>
      row.document in docs && row.document.uploaderId == me && row.document.userId.Some? &&
      row.document.userId.value in users && row.recipientName == users[row.document.userId.value].name
  {
    FilterMapMember(docs, SentQuery(users, me), row);
  }

  function ReceivedNewestFirst(row: ReceivedRow): int { -(row.document.createdAt as int) }
  function SentNewestFirst(row: SentRow): int { -(row.document.createdAt as int) }

  /** `GET /mine`: the documents addressed to the caller whose sender exists,
      newest first. */
  function Mine(users: map<nat, User>, docs: seq<Document>, me: nat): (r: seq<ReceivedRow>)
    ensures forall row: ReceivedRow :: row in r <==>
      row.document in docs && row.document.userId == Some(me) && row.document.uploaderId in users &&
      row.uploaderName == users[row.document.uploaderId].name
    ensures forall i, k | 0 <= i < k < |r| :: r[i].document.createdAt >= r[k].document.createdAt
  {
    var rows := FilterMap(docs, ReceivedQuery(users, me));
    var r := SortBy(rows, ReceivedNewestFirst);
    forall row: ReceivedRow
      ensures row in r <==>
        row.document in docs && row.document.userId == Some(me) && row.document.uploaderId in users &&
        row.uploaderName == users[row.document.uploaderId].name
    {
      SortByMember(rows, ReceivedNewestFirst, row);
      ReceivedMember(users, docs, me, row);
    }
    assert forall i, k | 0 <= i < k < |r| :: ReceivedNewestFirst(r[i]) <= ReceivedNewestFirst(r[k]);
    r
  }

  /** `GET /sent`: the documents the caller uploaded whose recipient exists,
      newest first. */
  function Sent(users: map<nat, User>, docs: seq<Document>, me: nat): (r: seq<SentRow>)
    ensures forall row: SentRow :: row in r <==>
      row.document in docs && row.document.uploaderId == me && row.document.userId.Some? &&
      row.document.userId.value in users && row.recipientName == users[row.document.userId.value].name
    ensures forall i, k | 0 <= i < k < |r| :: r[i].document.createdAt >= r[k].document.createdAt
  {
    var rows := FilterMap(docs, SentQuery(users, me));
    var r := SortBy(rows, SentNewestFirst);
    forall row: SentRow
      ensures row in r <==>
        row.document in docs && row.document.uploaderId == me && row.document.userId.Some? &&
        row.document.userId.value in users && row.recipientName == users[row.document.userId.value].name
    {
      SortByMember(rows, SentNewestFirst, row);
      SentMember(users, docs, me, row);
    }
    assert forall i, k | 0 <= i < k < |r| :: SentNewestFirst(r[i]) <= SentNewestFirst(r[k]);
    r
  }

  /** A document from `h` to `p`, both stored users, is in `h`'s sent list and
      `p`'s received list, and in no one else's received list. */
  lemma DocumentVisibility(users: map<nat, User>, docs: seq<Document>, d: Document, h: nat, p: nat, q: nat)
    requires d in docs && d.uploaderId == h && d.userId == Some(p) && h in users && p in users
    ensures SentRow(d, users[p].name) in Sent(users, docs, h)
    ensures ReceivedRow(d, users[h].name) in Mine(users, docs, p)
    ensures q != p ==> forall row | row in Mine(users, docs, q) :: row.document != d
  {
  }

  /** A row of `/my-employees`. */
  datatype Employee = Employee(id: nat, name: Option<string>, role: Role, specialty: Option<string>)

  function EmployeeOf(u: User): (e: Employee)
    ensures e.id == u.id && e.name == u.name && e.role == u.role && e.specialty == u.specialty
  {
    Employee(u.id, u.name, u.role, u.specialty)
  }

  /** `GET /my-employees`: the users with an accepted application on one of
      hospital `h`'s jobs. */
  function MyEmployees(users: map<nat, User>, jobs: seq<Job>, apps: seq<Application>, h: nat): set<Employee> {
    set a, j | a in apps && j in jobs && Hired(a, j) && j.hospitalId == h && a.doctorId in users ::
      EmployeeOf(users[a.doctorId])
  }

  /** The employees are the hospital's contacts: the same users, by id. */
  lemma EmployeesAreContacts(users: map<nat, User>, jobs: seq<Job>, apps: seq<Application>, h: nat)
    ensures (set e | e in MyEmployees(users, jobs, apps, h) :: e.id) ==
            (set c | c in HospitalContacts(users, jobs, apps, h) :: c.id)
  {
    var es := MyEmployees(users, jobs, apps, h);
    var cs := HospitalContacts(users, jobs, apps, h);
    var eids := set e | e in es :: e.id;
    var cids := set c | c in cs :: c.id;
    forall id | id in eids ensures id in cids {
      var e :| e in es && e.id == id;
      var a, j :| a in apps && j in jobs && Hired(a, j) && j.hospitalId == h && a.doctorId in users &&
        e == EmployeeOf(users[a.doctorId]);
      assert ContactOf(users[a.doctorId]) in cs;
    }
    forall id | id in cids ensures id in eids {
      var c :| c in cs && c.id == id;
      var a, j :| a in apps && j in jobs && Hired(a, j) && j.hospitalId == h && a.doctorId in users &&
        c == ContactOf(users[a.doctorId]);
      assert EmployeeOf(users[a.doctorId]) in es;
    }
  }
}
