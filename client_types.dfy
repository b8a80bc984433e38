/** The shapes the web client works with: the signed-in user as the client
    holds it, and a professional experience entry. Fields the client type marks
    optional are `Option`s. */
module ClientTypes {
  import opened Common
  import opened Tables

  datatype Experience = Experience(
    id: string,
    hospital: string,
    position: string,
    startDate: string,
    endDate: Option<string>,
    description: Option<string>)

  datatype SessionUser = SessionUser(
    id: nat,
    name: string,
    email: string,
    role: Role,
    coren: Option<string>,
    crm: Option<string>,
    registration: Option<string>,
    avatarUrl: Option<string>,
    phone: Option<string>,
    bio: Option<string>,
    specialties: Option<seq<string>>,
    experiences: Option<seq<Experience>>,
    location: Option<string>,
    isVerified: Option<bool>,
    tier: Option<string>)
}
