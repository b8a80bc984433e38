/** The message routes: the contacts a user may chat with, derived from
    accepted applications; the conversation between two users; sending a
    message. */
module MessageRoutes {
  import opened Common
  import opened Seqs
  import opened Ordering
  import opened Tables
  import opened ApplicationController

  /** A row of `SELECT DISTINCT u.id, u.name, u.role, u.avatar_url`. */
  datatype Contact = Contact(id: nat, name: Option<string>, role: Role, avatarUrl: Option<string>)

  function ContactOf(u: User): (c: Contact)
    ensures c.id == u.id && c.name == u.name && c.role == u.role && c.avatarUrl == u.avatarUrl
  {
    Contact(u.id, u.name, u.role, u.avatarUrl)
  }

  /** An accepted application `a` on job `j`: the link that makes the doctor and
      the job's hospital contacts of each other. */
  predicate Hired(a: Application, j: Job) {
    a.jobId == j.id && a.status == Accepted
  }

  /** The hospital branch: the doctors with an accepted application on one of
      hospital `h`'s jobs. DISTINCT makes it a set. */
  function HospitalContacts(users: map<nat, User>, jobs: seq<Job>, apps: seq<Application>, h: nat): set<Contact> {
    set a, j | a in apps && j in jobs && Hired(a, j) && j.hospitalId == h && a.doctorId in users ::
      ContactOf(users[a.doctorId])
  }

  /** The other branch: the hospitals of the jobs on which `d` holds an
      accepted application. */
  function ProfessionalContacts(users: map<nat, User>, jobs: seq<Job>, apps: seq<Application>, d: nat): set<Contact> {
    set a, j | a in apps && j in jobs && Hired(a, j) && a.doctorId == d && j.hospitalId in users ::
      ContactOf(users[j.hospitalId])
  }

  /** `GET /contacts`: the branch is chosen by the caller's role alone; every
      role but `hospital` takes the professional branch. */
  function Contacts(users: map<nat, User>, jobs: seq<Job>, apps: seq<Application>, caller: Actor): (r: set<Contact>)
    ensures caller.role == Hospital ==> r == HospitalContacts(users, jobs, apps, caller.id)
    ensures caller.role != Hospital ==> r == ProfessionalContacts(users, jobs, apps, caller.id)
  {
    if caller.role == Hospital then HospitalContacts(users, jobs, apps, caller.id)
    else ProfessionalContacts(users, jobs, apps, caller.id)
  }

  /** Users stored under their own id. */
  ghost predicate KeyedById(users: map<nat, User>) {
    forall k | k in users :: users[k].id == k
  }

  /** Who is a hospital's contact: exactly a stored user hired on one of its jobs. */
  lemma HospitalContactMember(users: map<nat, User>, jobs: seq<Job>, apps: seq<Application>, h: nat, d: nat)
    requires KeyedById(users) && d in users
    ensures ContactOf(users[d]) in HospitalContacts(users, jobs, apps, h) <==>
      exists a, j | a in apps && j in jobs :: Hired(a, j) && j.hospitalId == h && a.doctorId == d
  {
    if ContactOf(users[d]) in HospitalContacts(users, jobs, apps, h) {
      var a, j :| a in apps && j in jobs && Hired(a, j) && j.hospitalId == h && a.doctorId in users &&
        ContactOf(users[d]) == ContactOf(users[a.doctorId]);
      assert users[a.doctorId].id == a.doctorId;
    }
  }

  /** Who is a professional's contact: exactly a stored hospital whose job the
      professional was hired on. */
  lemma ProfessionalContactMember(users: map<nat, User>, jobs: seq<Job>, apps: seq<Application>, d: nat, h: nat)
    requires KeyedById(users) && h in users
    ensures ContactOf(users[h]) in ProfessionalContacts(users, jobs, apps, d) <==>
      exists a, j | a in apps && j in jobs :: Hired(a, j) && j.hospitalId == h && a.doctorId == d
  {
    if ContactOf(users[h]) in ProfessionalContacts(users, jobs, apps, d) {
      var a, j :| a in apps && j in jobs && Hired(a, j) && a.doctorId == d && j.hospitalId in users &&
        ContactOf(users[h]) == ContactOf(users[j.hospitalId]);
      assert users[j.hospitalId].id == j.hospitalId;
    }
  }

  /** Contacts are symmetric: a doctor is in a hospital's list exactly when the
      hospital is in the doctor's list, when both are stored users. */
  lemma ContactsSymmetric(users: map<nat, User>, jobs: seq<Job>, apps: seq<Application>, h: nat, d: nat)
    requires KeyedById(users) && h in users && d in users
    ensures ContactOf(users[d]) in HospitalContacts(users, jobs, apps, h) <==>
      ContactOf(users[h]) in ProfessionalContacts(users, jobs, apps, d)
  {
    HospitalContactMember(users, jobs, apps, h, d);
    ProfessionalContactMember(users, jobs, apps, d, h);
  }

  /** DISTINCT leaves one row per user: two contacts with the same id are the same row. */
  lemma ContactIdsDistinct(users: map<nat, User>, jobs: seq<Job>, apps: seq<Application>, caller: Actor, c1: Contact, c2: Contact)
    requires KeyedById(users)
    requires c1 in Contacts(users, jobs, apps, caller) && c2 in Contacts(users, jobs, apps, caller)
    requires c1.id == c2.id
    ensures c1 == c2
  {
    if caller.role == Hospital {
      HospitalContactIdsDistinct(users, jobs, apps, caller.id, c1, c2);
    } else {
      ProfessionalContactIdsDistinct(users, jobs, apps, caller.id, c1, c2);
    }
  }

  /** The hospital branch's DISTINCT keeps one contact per doctor id. */
  lemma HospitalContactIdsDistinct(users: map<nat, User>, jobs: seq<Job>, apps: seq<Application>, h: nat, c1: Contact, c2: Contact)
    requires KeyedById(users)
    requires c1 in HospitalContacts(users, jobs, apps, h) && c2 in HospitalContacts(users, jobs, apps, h)
    requires c1.id == c2.id
    ensures c1 == c2
  {
    var a1, j1 :| a1 in apps && j1 in jobs && Hired(a1, j1) && j1.hospitalId == h && a1.doctorId in users &&
      c1 == ContactOf(users[a1.doctorId]);
    var a2, j2 :| a2 in apps && j2 in jobs && Hired(a2, j2) && j2.hospitalId == h && a2.doctorId in users &&
      c2 == ContactOf(users[a2.doctorId]);
    assert users[a1.doctorId].id == a1.doctorId && users[a2.doctorId].id == a2.doctorId;
  }

  /** The professional branch's DISTINCT keeps one contact per hospital id. */
  lemma ProfessionalContactIdsDistinct(users: map<nat, User>, jobs: seq<Job>, apps: seq<Application>, d: nat, c1: Contact, c2: Contact)
    requires KeyedById(users)
    requires c1 in ProfessionalContacts(users, jobs, apps, d) && c2 in ProfessionalContacts(users, jobs, apps, d)
    requires c1.id == c2.id
    ensures c1 == c2
  {
    var a1, j1 :| a1 in apps && j1 in jobs && Hired(a1, j1) && a1.doctorId == d && j1.hospitalId in users &&
      c1 == ContactOf(users[j1.hospitalId]);
    var a2, j2 :| a2 in apps && j2 in jobs && Hired(a2, j2) && a2.doctorId == d && j2.hospitalId in users &&
      c2 == ContactOf(users[j2.hospitalId]);
    assert users[j1.hospitalId].id == j1.hospitalId && users[j2.hospitalId].id == j2.hospitalId;
  }

  /** Pending and rejected applications never make a contact: adding any number
      of them changes neither branch. */
  lemma UndecidedMakeNoContact(users: map<nat, User>, jobs: seq<Job>, apps: seq<Application>, extra: seq<Application>, u: nat)
    requires forall a | a in extra :: a.status != Accepted
    ensures HospitalContacts(users, jobs, apps + extra, u) == HospitalContacts(users, jobs, apps, u)
    ensures ProfessionalContacts(users, jobs, apps + extra, u) == ProfessionalContacts(users, jobs, apps, u)
  {
    forall c | c in HospitalContacts(users, jobs, apps + extra, u)
      ensures c in HospitalContacts(users, jobs, apps, u)
    {
      var a, j :| a in apps + extra && j in jobs && Hired(a, j) && j.hospitalId == u && a.doctorId in users &&
        c == ContactOf(users[a.doctorId]);
    }
    forall c | c in ProfessionalContacts(users, jobs, apps + extra, u)
      ensures c in ProfessionalContacts(users, jobs, apps, u)
    {
      var a, j :| a in apps + extra && j in jobs && Hired(a, j) && a.doctorId == u && j.hospitalId in users &&
        c == ContactOf(users[j.hospitalId]);
    }
  }

  /** Accepting an application on one of a hospital's jobs makes the doctor a
      contact of that hospital. */
  lemma AcceptMakesContact(users: map<nat, User>, jobs: seq<Job>, apps: seq<Application>, a: Application, j: Job, h: nat)
    requires a in apps && j in jobs && a.jobId == j.id && j.hospitalId == h && a.doctorId in users
    ensures ContactOf(users[a.doctorId]) in HospitalContacts(users, jobs, SetStatus(apps, a.id, Accepted), h)
  {
    var r := SetStatus(apps, a.id, Accepted);
    var i :| 0 <= i < |apps| && apps[i] == a;
    assert r[i] in r && Hired(r[i], j);
  }

  /** Two jobs of one hospital, one accepted and one pending application: only
      the accepted doctor is a contact. */
  lemma OnlyAcceptedDoctorIsContact(d1: User, d2: User, hosp: User)
    requires d1.id == 2 && d2.id == 3 && hosp.id == 1
    ensures var users := map[1 := hosp, 2 := d1, 3 := d2];
      var jobs := [Job(10, 1, "", "", "", 0, "", "", Open, 0), Job(11, 1, "", "", "", 0, "", "", Open, 0)];
      var apps := [Application(20, 10, 2, Accepted, 0), Application(21, 11, 3, Pending, 0)];
      HospitalContacts(users, jobs, apps, 1) == {ContactOf(d1)}
  {
    var users := map[1 := hosp, 2 := d1, 3 := d2];
    var jobs := [Job(10, 1, "", "", "", 0, "", "", Open, 0), Job(11, 1, "", "", "", 0, "", "", Open, 0)];
    var apps := [Application(20, 10, 2, Accepted, 0), Application(21, 11, 3, Pending, 0)];
    assert apps[0] in apps && jobs[0] in jobs && Hired(apps[0], jobs[0]);
    forall c | c in HospitalContacts(users, jobs, apps, 1) ensures c == ContactOf(d1) {
      var a, j :| a in apps && j in jobs && Hired(a, j) && j.hospitalId == 1 && a.doctorId in users &&
        c == ContactOf(users[a.doctorId]);
    }
  }

  /** A message of the conversation between `u` and `v`, in either direction. */
  predicate Between(m: Message, u: nat, v: nat) {
    (m.senderId == u && m.receiverId == v) || (m.senderId == v && m.receiverId == u)
  }

  function BetweenOf(u: nat, v: nat): Message -> bool {
    (m: Message) => Between(m, u, v)
  }

  function MessageTime(m: Message): int { m.createdAt }

  /** `GET /:otherUserId`: the messages between the two users, oldest first. */
  function History(msgs: seq<Message>, u: nat, v: nat): (r: seq<Message>)
    ensures forall m :: m in r <==> m in msgs && Between(m, u, v)
    ensures forall i, k | 0 <= i < k < |r| :: r[i].createdAt <= r[k].createdAt
    ensures multiset(r) == multiset(Filter(msgs, BetweenOf(u, v)))
  {
    var r := Select(msgs, BetweenOf(u, v), MessageTime);
    assert forall i, k | 0 <= i < k < |r| :: MessageTime(r[i]) <= MessageTime(r[k]);
    r
  }

  /** Both participants see the same conversation. */
  lemma HistorySymmetric(msgs: seq<Message>, u: nat, v: nat)
    ensures History(msgs, u, v) == History(msgs, v, u)
  {
    FilterExt(msgs, BetweenOf(u, v), BetweenOf(v, u));
  }

  const MissingContentOrReceiver := "Missing content or receiver"

  /** `POST /`: 400 when the content is missing or empty, or the receiver is
      missing or 0 (falsy); otherwise one unread message from the caller is
      appended. Whether the receiver is a contact, or exists, is not checked. */
  method SendMessage(db: Database, caller: Actor, receiver: Option<nat>, content: Option<string>, now: nat)
    returns (r: Result<Message>)
    requires db.Valid()
    modifies db
    ensures db.Valid()
    ensures r.Err? <==> !Truthy(content) || receiver.None? || receiver.value == 0
    ensures r.Err? ==> r.error == Fail(400, MissingContentOrReceiver) && db.messages == old(db.messages)
    ensures r.Ok? ==>
      r.value == Message(old(db.nextMessageId), caller.id, receiver.value, content.value, now, false) &&
      db.messages == old(db.messages) + [r.value] && db.nextMessageId == old(db.nextMessageId) + 1
    ensures r.Err? ==> db.nextMessageId == old(db.nextMessageId)
    ensures unchanged(db`users, db`jobs, db`applications, db`documents)
    ensures unchanged(db`nextJobId, db`nextApplicationId, db`nextDocumentId)
  {
    if !Truthy(content) || receiver.None? || receiver.value == 0 {
      return Err(Fail(400, MissingContentOrReceiver));
    }
    var m := Message(db.nextMessageId, caller.id, receiver.value, content.value, now, false);
    SerialAppend(db.messages, MessageId, db.nextMessageId, m);
    db.messages := db.messages + [m];
    db.nextMessageId := db.nextMessageId + 1;
    r := Ok(m);
  }

  /** A sent message joins its own conversation and no other. */
  lemma SendTouchesOneConversation(msgs: seq<Message>, m: Message, u: nat, v: nat)
    ensures m in History(msgs + [m], m.senderId, m.receiverId)
    ensures !Between(m, u, v) ==> History(msgs + [m], u, v) == History(msgs, u, v)
  {
    assert m in msgs + [m];
    if !Between(m, u, v) {
      FilterAppend(msgs, [m], BetweenOf(u, v));
      assert Filter([m], BetweenOf(u, v)) == [];
      assert msgs + [] == msgs;
      assert Filter(msgs + [m], BetweenOf(u, v)) == Filter(msgs, BetweenOf(u, v));
      assert Select(msgs + [m], BetweenOf(u, v), MessageTime) == Select(msgs, BetweenOf(u, v), MessageTime);
    }
  }
}
