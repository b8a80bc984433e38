/** The sign-up page: the payload it posts to `/auth/register` and the page it
    opens after a successful sign-up. */
module RegisterPage {
  import opened Common
  import opened Tables
  import opened ClientTypes
  import opened AppRoutes

  /** The sign-up form's text boxes, all starting empty. */
  datatype SignupForm = SignupForm(
    name: string,
    email: string,
    password: string,
    crm: string,
    coren: string,
    specialty: string,
    cnpj: string,
    address: string,
    phone: string)

  /** The body posted to `/auth/register`. */
  datatype RegisterPayload = RegisterPayload(
    name: string,
    email: string,
    password: string,
    role: Role,
    phone: string,
    registration: string,
    location: string,
    specialty: string,
    specialties: seq<string>,
    experiences: seq<Experience>)

  /** `handleSubmit`'s payload: the registration number is the CRM for a
      doctor, the COREN for a nurse and the CNPJ otherwise; only a hospital
      sends its address as location; the specialty becomes a one-element list
      when filled in; no experience is sent. */
  function Payload(role: Role, f: SignupForm): (p: RegisterPayload)
    ensures p.role == role && p.name == f.name && p.email == f.email && p.password == f.password && p.phone == f.phone
    ensures role == Doctor ==> p.registration == f.crm
    ensures role == Nurse ==> p.registration == f.coren
    ensures role == Hospital ==> p.registration == f.cnpj
    ensures p.location == (if role == Hospital then f.address else "")
    ensures p.specialty == f.specialty
    ensures f.specialty != "" <==> p.specialties == [f.specialty]
    ensures f.specialty == "" <==> p.specialties == []
    ensures p.experiences == []
  {
    var registration := if role == Doctor then f.crm else if role == Nurse then f.coren else f.cnpj;
    var location := if role == Hospital then f.address else "";
    RegisterPayload(f.name, f.email, f.password, role, f.phone, registration, location,
                    f.specialty, if f.specialty != "" then [f.specialty] else [], [])
  }

  /** The fields of other roles never leak into the payload: a doctor's
      payload does not depend on the COREN, CNPJ or address boxes. */
  lemma PayloadIgnoresOtherRoles(f: SignupForm, g: SignupForm)
    requires f.(coren := g.coren, cnpj := g.cnpj, address := g.address) == g
    ensures Payload(Doctor, f) == Payload(Doctor, g)
  {
  }

  /** Where a successful sign-up lands. */
  function RedirectAfterSignup(role: Role): (path: string)
    ensures role == Hospital ==> path == "/hospital"
    ensures role == Doctor ==> path == "/doctor"
    ensures role != Hospital && role != Doctor ==> path == "/profile"
  {
    if role == Hospital then "/hospital" else if role == Doctor then "/doctor" else "/profile"
  }

  /** The page opened after sign-up admits the new user: once the session
      holds the user, the guard renders it rather than sending them back. */
  lemma SignupLandsOnAdmittingPage(role: Role, s: Session)
    requires s.isAuthenticated && s.user.Some? && s.user.value.role == role
    ensures IsProtected(RedirectAfterSignup(role))
    ensures Visit(RedirectAfterSignup(role), s) == Render
  {
    var path := RedirectAfterSignup(role);
    if role == Hospital || role == Doctor {
      assert AllowedRoles(path) == Some([role]);
    } else {
      assert AllowedRoles(path) == None;
    }
  }
}
