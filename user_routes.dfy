/** The user routes: reading the caller's own row, updating the profile
    through an `UPDATE` statement assembled field by field, and setting the
    avatar. Password hashing is a parameter. */
module UserRoutes {
  import opened Common
  import opened Tables

  const UserNotFound := "User not found"
  const PasswordsDoNotMatch := "Passwords do not match"
  const NoFileUploaded := "No file uploaded"
  const AvatarPath := "/uploads/"

  /** `GET /me`: the caller's row, or 404 when it is gone. */
  function GetMe(users: map<nat, User>, me: nat): (r: Result<User>)
    ensures r.Err? <==> me !in users
    ensures r.Err? ==> r.error == Fail(404, UserNotFound)
    ensures r.Ok? ==> r.value == users[me]
  {
    if me in users then Ok(users[me]) else Err(Fail(404, UserNotFound))
  }

  /** A JSON body field that may carry an array (`specialties`,
      `experiences`): an array, with the text `JSON.stringify` makes of it, or
      any other value. */
  datatype ListField = Array(json: string) | Other(value: Option<string>)

  /** `Array.isArray(x) ? JSON.stringify(x) : (x || '[]')`. */
  function ListColumn(x: ListField): (t: string)
    ensures x.Array? ==> t == x.json
    ensures x.Other? && Truthy(x.value) ==> t == x.value.value
    ensures x.Other? && !Truthy(x.value) ==> t == "[]"
  {
    match x
    case Array(json) => json
    case Other(v) => if Truthy(v) then v.value else "[]"
  }

  /** The body of `PUT /me`. */
  datatype ProfileBody = ProfileBody(
    name: Option<string>,
    registration: Option<string>,
    location: Option<string>,
    phone: Option<string>,
    bio: Option<string>,
    specialties: ListField,
    experiences: ListField,
    password: Option<string>,
    confirmPassword: Option<string>)

  /** The caller's row as the update is meant to leave it: the seven profile
      fields from the body, the password replaced by its hash only when one was
      given, every other column untouched. */
  function ProfileUpdated(u: User, body: ProfileBody, hash: string -> string): User {
    u.(name := body.name, registration := body.registration, location := body.location, phone := body.phone,
       bio := body.bio, specialties := Some(ListColumn(body.specialties)),
       experiences := Some(ListColumn(body.experiences)),
       password := if Truthy(body.password) then hash(body.password.value) else u.password)
  }

  /** Without a password the row keeps its password and every column outside
      the seven profile fields. */
  lemma ProfileUpdateScope(u: User, body: ProfileBody, hash: string -> string)
    ensures var v := ProfileUpdated(u, body, hash);
      v.id == u.id && v.email == u.email && v.role == u.role && v.tier == u.tier &&
      v.isVerified == u.isVerified && v.avatarUrl == u.avatarUrl && v.specialty == u.specialty
    ensures !Truthy(body.password) ==> ProfileUpdated(u, body, hash).password == u.password
    ensures Truthy(body.password) ==> ProfileUpdated(u, body, hash).password == hash(body.password.value)
  {
  }

  /** The columns `PUT /me` can set. */
  datatype Column = Name | Registration | Location | Phone | Bio | Specialties | Experiences | Password

  /** `column = $placeholder` in the `SET` list. */
  datatype Assignment = Assignment(column: Column, placeholder: nat)

  /** A bound parameter: a text value (possibly NULL), a password hash, or the row key. */
  datatype Param = Text(text: Option<string>) | Digest(hashed: string) | Key(id: nat)

  /** `UPDATE users SET assignments WHERE id = $whereIndex` with `params`. */
  datatype UpdatePlan = UpdatePlan(assignments: seq<Assignment>, params: seq<Param>, whereIndex: nat)

  /** One `column = value`; a value of the wrong kind is an error (`None`). */
  function SetColumn(u: User, c: Column, p: Param): Option<User> {
    match (c, p)
    case (Name, Text(t)) => Some(u.(name := t))
    case (Registration, Text(t)) => Some(u.(registration := t))
    case (Location, Text(t)) => Some(u.(location := t))
    case (Phone, Text(t)) => Some(u.(phone := t))
    case (Bio, Text(t)) => Some(u.(bio := t))
    case (Specialties, Text(t)) => Some(u.(specialties := t))
    case (Experiences, Text(t)) => Some(u.(experiences := t))
    case (Password, Digest(h)) => Some(u.(password := h))
    case _ => None
  }

  /** Runs a `SET` list against a row: each placeholder is looked up among the
      parameters (`$1` is the first); one out of range is an error. */
  function RunAssignments(u: User, assignments: seq<Assignment>, params: seq<Param>): Option<User>
    decreases |assignments|
  {
    if assignments == [] then Some(u)
    else
      var a := assignments[0];
      if !(1 <= a.placeholder <= |params|) then None
      else match SetColumn(u, a.column, params[a.placeholder - 1])
        case None => None
        case Some(v) => RunAssignments(v, assignments[1..], params)
  }

  /** The row key the `WHERE` placeholder picks, when it picks one. */
  function Target(plan: UpdatePlan): Option<nat> {
    if 1 <= plan.whereIndex <= |plan.params| && plan.params[plan.whereIndex - 1].Key?
    then Some(plan.params[plan.whereIndex - 1].id) else None
  }

  /** The seven profile assignments, `$1` to `$7`, as the handler lists them. */
  const ProfileAssignments: seq<Assignment> := [
    Assignment(Name, 1), Assignment(Registration, 2), Assignment(Location, 3), Assignment(Phone, 4),
    Assignment(Bio, 5), Assignment(Specialties, 6), Assignment(Experiences, 7)]

  function ProfileParams(body: ProfileBody): seq<Param> {
    [Text(body.name), Text(body.registration), Text(body.location), Text(body.phone), Text(body.bio),
     Text(Some(ListColumn(body.specialties))), Text(Some(ListColumn(body.experiences)))]
  }

  /** The seven profile assignments set the seven fields from the body,
      whatever follows them among the parameters. */
  lemma ProfileAssignmentsRun(u: User, body: ProfileBody, extra: seq<Param>)
    ensures RunAssignments(u, ProfileAssignments, ProfileParams(body) + extra) ==
      Some(u.(name := body.name, registration := body.registration, location := body.location, phone := body.phone,
              bio := body.bio, specialties := Some(ListColumn(body.specialties)),
              experiences := Some(ListColumn(body.experiences))))
  {
    var ps := ProfileParams(body) + extra;
    var a := ProfileAssignments;
    var u1 := u.(name := body.name);
    var u2 := u1.(registration := body.registration);
    var u3 := u2.(location := body.location);
    var u4 := u3.(phone := body.phone);
    var u5 := u4.(bio := body.bio);
    var u6 := u5.(specialties := Some(ListColumn(body.specialties)));
    var u7 := u6.(experiences := Some(ListColumn(body.experiences)));
    assert ps[..7] == ProfileParams(body);
    RunStep(u, a, ps, u1);
    RunStep(u1, a[1..], ps, u2);
    RunStep(u2, a[2..], ps, u3);
    RunStep(u3, a[3..], ps, u4);
    RunStep(u4, a[4..], ps, u5);
    RunStep(u5, a[5..], ps, u6);
    RunStep(u6, a[6..], ps, u7);
    assert a[1..][1..] == a[2..] && a[2..][1..] == a[3..] && a[3..][1..] == a[4..];
    assert a[4..][1..] == a[5..] && a[5..][1..] == a[6..] && a[6..][1..] == [];
  }

  /** One assignment whose placeholder and value fit moves on to the next. */
  lemma RunStep(u: User, a: seq<Assignment>, ps: seq<Param>, v: User)
    requires a != [] && 1 <= a[0].placeholder <= |ps|
    requires SetColumn(u, a[0].column, ps[a[0].placeholder - 1]) == Some(v)
    ensures RunAssignments(u, a, ps) == RunAssignments(v, a[1..], ps)
  {
  }

  /** `PUT /me` up to the query: the seven profile assignments and their
      values, then `password = $8` with the hash when a password is given,
      then the caller's id as the last parameter, `WHERE id = $8` or `$9`. A
      password that differs from its confirmation is refused with 400 before
      anything is hashed. */
  method PlanProfileUpdate(body: ProfileBody, me: nat, hash: string -> string) returns (r: Result<UpdatePlan>)
    ensures r.Err? <==> Truthy(body.password) && body.password != body.confirmPassword
    ensures r.Err? ==> r.error == Fail(400, PasswordsDoNotMatch)
    ensures r.Ok? ==> Target(r.value) == Some(me)
    ensures r.Ok? ==> r.value.whereIndex == |r.value.params| == (if Truthy(body.password) then 9 else 8)
    ensures r.Ok? ==> |r.value.assignments| == |r.value.params| - 1
    ensures r.Ok? ==> forall i | 0 <= i < |r.value.assignments| :: r.value.assignments[i].placeholder == i + 1
    ensures r.Ok? ==> (exists i | 0 <= i < |r.value.assignments| :: r.value.assignments[i].column == Password)
      <==> Truthy(body.password)
    ensures r.Ok? ==> forall u: User ::
      RunAssignments(u, r.value.assignments, r.value.params) == Some(ProfileUpdated(u, body, hash))
  {
    var updateFields := ProfileAssignments;
    var params := ProfileParams(body);
    var paramIndex := 8;
    if Truthy(body.password) {
      if body.password != body.confirmPassword {
        return Err(Fail(400, PasswordsDoNotMatch));
      }
      var hashed := hash(body.password.value);
      updateFields := updateFields + [Assignment(Password, paramIndex)];
      params := params + [Digest(hashed)];
      paramIndex := paramIndex + 1;
      assert updateFields[7].column == Password;
    } else {
      assert forall i | 0 <= i < |updateFields| :: updateFields[i] == ProfileAssignments[i];
    }
    params := params + [Key(me)];
    r := Ok(UpdatePlan(updateFields, params, paramIndex));
    forall u: User ensures RunAssignments(u, updateFields, params) == Some(ProfileUpdated(u, body, hash)) {
      PlanRuns(u, body, hash, me);
    }
  }

  /** The assembled statement sets exactly what the profile update means. */
  lemma PlanRuns(u: User, body: ProfileBody, hash: string -> string, me: nat)
    ensures !Truthy(body.password) ==>
      RunAssignments(u, ProfileAssignments, ProfileParams(body) + [Key(me)]) == Some(ProfileUpdated(u, body, hash))
    ensures Truthy(body.password) ==>
      RunAssignments(u, ProfileAssignments + [Assignment(Password, 8)],
        ProfileParams(body) + [Digest(hash(body.password.value))] + [Key(me)]) == Some(ProfileUpdated(u, body, hash))
  {
    if Truthy(body.password) {
      var ps := ProfileParams(body) + [Digest(hash(body.password.value))] + [Key(me)];
      RunAppend(u, ProfileAssignments, [Assignment(Password, 8)], ps);
      ProfileAssignmentsRun(u, body, [Digest(hash(body.password.value))] + [Key(me)]);
      assert ps == ProfileParams(body) + ([Digest(hash(body.password.value))] + [Key(me)]);
      assert ps[7] == Digest(hash(body.password.value));
    } else {
      ProfileAssignmentsRun(u, body, [Key(me)]);
    }
  }

  /** Two `SET` lists in a row run one after the other. */
  lemma {:induction false} RunAppend(u: User, a: seq<Assignment>, b: seq<Assignment>, params: seq<Param>)
    ensures RunAssignments(u, a + b, params) ==
      match RunAssignments(u, a, params)
      case None => None
      case Some(v) => RunAssignments(v, b, params)
    decreases |a|
  {
    if a != [] {
      assert (a + b)[0] == a[0] && (a + b)[1..] == a[1..] + b;
      var x := a[0];
      if 1 <= x.placeholder <= |params| {
        match SetColumn(u, x.column, params[x.placeholder - 1])
        case None =>
        case Some(v) => RunAppend(v, a[1..], b, params);
      }
    } else {
      assert a + b == b;
    }
  }

  /** `PUT /me` against the table: the planned statement runs on the caller's
      row only; when that row is gone nothing is updated and no row comes back. */
  method UpdateMe(db: Database, caller: Actor, body: ProfileBody, hash: string -> string)
    returns (r: Result<Option<User>>)
    requires db.Valid()
    modifies db
    ensures db.Valid()
    ensures r.Err? <==> Truthy(body.password) && body.password != body.confirmPassword
    ensures r.Err? ==> r.error == Fail(400, PasswordsDoNotMatch) && db.users == old(db.users)
    ensures r.Ok? && caller.id in old(db.users) ==>
      r.value == Some(ProfileUpdated(old(db.users)[caller.id], body, hash)) &&
      db.users == old(db.users)[caller.id := r.value.value]
    ensures r.Ok? && caller.id !in old(db.users) ==> r.value == None && db.users == old(db.users)
    ensures unchanged(db`jobs, db`applications, db`messages, db`documents)
    ensures unchanged(db`nextJobId, db`nextApplicationId, db`nextMessageId, db`nextDocumentId)
  {
    var plan := PlanProfileUpdate(body, caller.id, hash);
    if plan.Err? {
      return Err(plan.error);
    }
    var key := Target(plan.value).value;
    if key !in db.users {
      return Ok(None);
    }
    var updated := RunAssignments(db.users[key], plan.value.assignments, plan.value.params).value;
    db.users := db.users[key := updated];
    r := Ok(Some(updated));
  }

  /** `POST /me/avatar`: 400 without a file; otherwise the caller's
      `avatar_url` becomes the stored file's path, which is returned. */
  method UploadAvatar(db: Database, caller: Actor, filename: Option<string>) returns (r: Result<string>)
    requires db.Valid()
    modifies db
    ensures db.Valid()
    ensures r.Err? <==> filename.None?
    ensures r.Err? ==> r.error == Fail(400, NoFileUploaded) && db.users == old(db.users)
    ensures r.Ok? ==> r.value == AvatarPath + filename.value
    ensures r.Ok? && caller.id in old(db.users) ==>
      db.users == old(db.users)[caller.id := old(db.users)[caller.id].(avatarUrl := Some(r.value))]
    ensures r.Ok? && caller.id !in old(db.users) ==> db.users == old(db.users)
    ensures unchanged(db`jobs, db`applications, db`messages, db`documents)
    ensures unchanged(db`nextJobId, db`nextApplicationId, db`nextMessageId, db`nextDocumentId)
  {
    if filename.None? {
      return Err(Fail(400, NoFileUploaded));
    }
    var avatarUrl := AvatarPath + filename.value;
    if caller.id in db.users {
      db.users := db.users[caller.id := db.users[caller.id].(avatarUrl := Some(avatarUrl))];
    }
    r := Ok(avatarUrl);
  }
}
