# Med Hub rule layer in Dafny

Med Hub is a staffing marketplace. Hospitals post shifts ("jobs"), and doctors
and nurses apply for them. A hospital accepts or rejects applicants. Once
accepted, the two sides can message each other and the hospital can send the
professional documents such as payslips.

This project models the marketplace's rule layer and proves properties of it:

- the Express handlers and their SQL, run against an in-memory database;
- the bearer-token middleware;
- the decision and list-editing logic of the React pages.

Layout:

- `Tables.Database` is a class holding the five tables. Every users row is
  stored under its own id. Each other table is a sequence in insertion order,
  with its own `SERIAL` counter.
- A handler that writes to a table is a method with `modifies db`. Its
  `ensures` gives the new contents of every table.
- A handler that only reads is a function over the table values.
- Each SQL `SELECT` is a `Seqs.FilterMap`: a `WHERE` plus joins on primary
  keys. `Ordering.SortBy` models `ORDER BY`, and `DISTINCT` is a set
  comprehension.
- The caller is an explicit `Actor(id, role)`. The route's `authorizeRole`
  check becomes a precondition of the handler.
- Verifying a JWT, hashing a password, naming a stored file, the clock,
  `crypto.randomUUID` and `Math.random` toast ids are all parameters.

Modules, one per source file, plus shared helpers:

- `Common`: `Option`, JavaScript truthiness, the error envelope and `Result`.
- `Text`: `trim`, `toLowerCase` and `includes`, over ASCII only.
- `Seqs`: `filter`, `COUNT(*)` and the single-table `SELECT`.
- `Ordering`: `ORDER BY`.
- `Tables`: the rows, the key and uniqueness invariants, and the database
  class.
- `Auth`: `server/middleware/auth.ts`, plus the copies of `authenticateToken`
  in the route files.
- `JobController`, `ApplicationController`, `MessageRoutes`, `DocumentRoutes`,
  `UserRoutes`: the server files of the same names.
- `ClientTypes`: the client's user and experience types.
- `ProfilePage`, `HospitalDashboard`, `DoctorDashboard`, `DocumentsPage`,
  `RegisterPage`, `AppRoutes` and `Toasts`: the pages, the router and the toast
  context.

Behaviour of the code that a reader might not expect, as the model states it:

- A decided application can be decided again: `updateApplicationStatus` has
  no guard on the current status (`ApplicationController.SetStatusLastWins`).
- Every role except `hospital` takes the professional branch of
  `GET /contacts`, `admin` included (`MessageRoutes.Contacts`).
- The hospital branch of `GET /contacts` lists any user who holds the
  accepted application, whatever that user's role
  (`MessageRoutes.HospitalContactMember`).
- `POST /messages` also refuses a `receiver_id` of 0, since 0 is falsy
  (`MessageRoutes.SendMessage`).
- `/documents/mine`, `/documents/sent` and `/documents/my-employees` check no
  role: any signed-in user can call any of them (`DocumentRoutes.Mine`,
  `DocumentRoutes.Sent`).
- The duplicate-application refusal reads `Already applied for this job`
  (`ApplicationController.ApplyForJob`).

## Model

| member | source | states |
|---|---|---|
| Common.OrElse | server/routes/documentRoutes.ts:55 | `a \|\| b` on optional strings is the first operand when it is truthy and the second otherwise |
| Text.Trim | src/pages/Profile.tsx:75 | `trim()` returns a contiguous slice of the input, cut at whitespace only, with no whitespace left at either end |
| Text.TrimIdempotent | src/pages/Profile.tsx:75 | trimming a trimmed string changes nothing |
| Text.TrimEmptyIffBlank | src/pages/Profile.tsx:75-76 | the trimmed value is empty exactly when the input is all whitespace, so `if (val && …)` refuses exactly blank input |
| Text.Lower | src/pages/DashboardDoctor.tsx:158 | `toLowerCase()` keeps the length and lower-cases each ASCII letter in place |
| Text.LowerIdempotent | src/pages/DashboardDoctor.tsx:158 | lower-casing twice is lower-casing once |
| Text.EmptyTermMatches | src/pages/DashboardDoctor.tsx:157-161 | the empty search term occurs in every string |
| Text.TermMatchesItself | src/pages/DashboardDoctor.tsx:158 | a string matches a search for itself |
| Text.MatchIgnoresTermCase | src/pages/DashboardDoctor.tsx:158 | a term and its lower-case form match the same strings |
| Seqs.Filter | src/context/ToastContext.tsx:42 | `filter` keeps exactly the elements that pass, in their original order (a subsequence), and never lengthens the list |
| Seqs.Count | server/controllers/jobController.ts:15-16 | `COUNT(*)` is at most the table size and is zero exactly when no row qualifies |
| Seqs.FilterMapMember | server/controllers/applicationController.ts:26-33 | a row is in a join result exactly when some table row produces it |
| Ordering.SortBy | server/controllers/jobController.ts:50 | `ORDER BY` returns its input rows as a permutation, sorted by the key |
| Ordering.Select | server/controllers/jobController.ts:39 | `WHERE … ORDER BY` returns exactly the qualifying rows, each as often as it occurs, sorted by the key |
| Tables.SerialAppend | server/controllers/jobController.ts:26-29 | an insert that takes the sequence's next value keeps the key increasing and below the next value |
| Tables.OnePerPairAppend | server/controllers/applicationController.ts:9-17 | appending an application for a pair not yet present keeps one application per (job, doctor) pair |
| Auth.Split | server/middleware/auth.ts:19 | `split(sep)` yields at least one segment, no segment holds the separator, and joining the segments gives back the input |
| Auth.SplitJoin | server/middleware/auth.ts:19 | splitting undoes joining when no segment holds the separator |
| Auth.BearerToken | server/middleware/auth.ts:18-19 | a token is non-empty and space-free; a missing or empty header gives none |
| Auth.BearerTokenOfSegments | server/middleware/auth.ts:19 | a header made of space-free segments yields its second segment; the scheme word is not checked and later segments are ignored |
| Auth.BearerHeaderRoundTrip | server/middleware/auth.ts:18-19 | `Bearer <token>` yields the token |
| Auth.NoSpaceNoToken | server/middleware/auth.ts:19-23 | a header without a space carries no token |
| Auth.TokenGate | server/middleware/auth.ts:21-31 | 401 exactly when there is no token; 403 exactly when the token fails verification; otherwise `next` with the verified payload |
| Auth.Authenticate | server/middleware/auth.ts:17-32 | the shared middleware stops with 401 `Access denied` exactly without a token, stops with 403 `Invalid token` on a bad one, and passes exactly a verified token |
| Auth.RouteAuthenticate | server/routes/messageRoutes.ts:8-18 | the per-route copy has the same outcomes, with the texts `Null token` and `Token invalid` |
| Auth.RouteAuthenticateAgrees | server/routes/userRoutes.ts:13-24 | the copies pass the same requests with the same payload and stop the others with the same status |
| Auth.AuthorizeRole | server/middleware/auth.ts:34-41 | `next` is called exactly when a user is attached and its role is listed; otherwise 403 `Insufficient permissions` |
| Auth.GuardAdmits | server/routes/jobRoutes.ts:11-12 | the chained guards admit exactly a verified token whose role is listed, and answer every other request with 401 or 403 |
| Auth.AuthenticateToken | server/middleware/auth.ts:17-32 | on a request, `req.user` is set to the payload exactly when `next` is called, and is left alone on an error |
| JobController.Tier | server/controllers/jobController.ts:11-12 | the tier is the stored one when it is truthy, else `free` (missing row, NULL or empty) |
| JobController.QuotaRule | server/controllers/jobController.ts:14-18 | a request is refused exactly when the tier is free and the hospital has an open job; closed jobs and other hospitals' jobs do not count |
| JobController.NewJob | server/controllers/jobController.ts:26-29 | the inserted row has the caller as owner, the request's six fields, status `open` and the current time |
| JobController.CreateJob | server/controllers/jobController.ts:4-35 | refused with 403 and `LIMIT_REACHED` exactly when the quota refuses, leaving the jobs table as it was; otherwise exactly one job is appended under the next id; no other table changes |
| JobController.OpenJobCountAppend | server/controllers/jobController.ts:15 | an insert changes only its own hospital's open-job count, by one |
| JobController.CreateKeepsFreeCap | server/controllers/jobController.ts:14-30 | with requests taken one at a time, no free hospital ever has two open jobs |
| JobController.SecondOpenJobRefused | server/controllers/jobController.ts:14-23 | once a free hospital has posted, every further request from it is refused |
| JobController.WithHospitalNames | server/controllers/jobController.ts:39 | the join attaches to each job, in order, its hospital's name |
| JobController.OpenJobs | server/controllers/jobController.ts:37-45 | `getJobs` lists exactly the open jobs whose hospital exists, each with that hospital's name, as many rows as such jobs, by date ascending |
| JobController.MyJobs | server/controllers/jobController.ts:47-56 | `getMyJobs` lists exactly the caller's jobs of any status, each as often as stored, newest first |
| JobController.PostedJobListed | server/controllers/jobController.ts:26-30 | a job just posted appears in the hospital's own list with the fields it sent and status `open` |
| JobController.BoardShowsOpenJobs | server/controllers/jobController.ts:39 | a job whose hospital exists is on the board exactly while it is open |
| ApplicationController.ApplyForJob | server/controllers/applicationController.ts:4-21 | 400 `Already applied for this job` exactly when the pair already exists, adding nothing; otherwise one pending application of the caller is appended; the job's status is not checked; the key sequence advances in both cases |
| ApplicationController.ApplyTwiceRefused | server/controllers/applicationController.ts:16-18 | after one application, the same pair is always refused |
| ApplicationController.ParseDecision | server/controllers/applicationController.ts:73-75 | only `accepted` and `rejected` are decisions; nothing yields `pending` |
| ApplicationController.SetStatus | server/controllers/applicationController.ts:90-93 | the update changes the status of the rows with that id only, keeping length and order |
| ApplicationController.SetStatusKeepsKeys | server/controllers/applicationController.ts:90-93 | the update keeps the key serial and the pairs unique |
| ApplicationController.SetStatusOthers | server/controllers/applicationController.ts:90-93 | every other application is present afterwards exactly when it was before |
| ApplicationController.SetStatusLastWins | server/controllers/applicationController.ts:90-93 | no guard on the current status: a later decision overwrites an earlier one |
| ApplicationController.SetStatusIdempotent | server/controllers/applicationController.ts:90-93 | repeating a decision changes nothing further |
| ApplicationController.SetStatusFinds | server/controllers/applicationController.ts:90-94 | after the update the row with that id is found again with the new status |
| ApplicationController.StatusUpdated | server/controllers/applicationController.ts:90-94 | the row `RETURNING *` gives back is in the updated table, with that id and the new status |
| ApplicationController.UpdateApplicationStatus | server/controllers/applicationController.ts:68-99 | 400 for a non-decision, checked first; then 403 unless the caller owns the application's job, where a missing application looks the same; otherwise only that row's status is overwritten and returned; other tables unchanged |
| ApplicationController.MyApplications | server/controllers/applicationController.ts:23-40 | lists exactly the caller's applications whose job and hospital exist, each joined with the job's details and the hospital's name, one row per such application, newest first |
| ApplicationController.MyApplicationsAreMine | server/controllers/applicationController.ts:31 | every listed row is the caller's own stored application |
| ApplicationController.AppliedIsListed | server/controllers/applicationController.ts:9-33 | an application just made for a job with an existing hospital is listed, pending, with the job's details |
| ApplicationController.ApplicantMember | server/controllers/applicationController.ts:53-59 | the applicant join gives exactly the job's applications whose doctor exists, with that doctor's name and email |
| ApplicationController.JobApplications | server/controllers/applicationController.ts:42-66 | 403 exactly when the caller owns no job with that id; otherwise exactly the job's applications whose doctor exists, oldest first |
| ApplicationController.OtherHospitalRefused | server/controllers/applicationController.ts:48-51 | another hospital never sees a job's applicants |
| MessageRoutes.Contacts | server/routes/messageRoutes.ts:22-58 | the branch depends on the caller's role alone: a hospital gets the hospital branch, every other role the professional branch |
| MessageRoutes.HospitalContactMember | server/routes/messageRoutes.ts:30-39 | a stored user is a hospital's contact exactly when it holds an accepted application on one of that hospital's jobs |
| MessageRoutes.ProfessionalContactMember | server/routes/messageRoutes.ts:40-49 | a stored hospital is a professional's contact exactly when the professional holds an accepted application on one of its jobs |
| MessageRoutes.ContactsSymmetric | server/routes/messageRoutes.ts:30-49 | a doctor is in a hospital's list exactly when the hospital is in the doctor's list |
| MessageRoutes.ContactIdsDistinct | server/routes/messageRoutes.ts:30-49 | in either branch, for any caller, `DISTINCT` leaves one contact per user id |
| MessageRoutes.HospitalContactIdsDistinct | server/routes/messageRoutes.ts:33-37 | the hospital branch has one contact per doctor id |
| MessageRoutes.ProfessionalContactIdsDistinct | server/routes/messageRoutes.ts:43-47 | the professional branch has one contact per hospital id |
| MessageRoutes.UndecidedMakeNoContact | server/routes/messageRoutes.ts:37-47 | adding pending or rejected applications changes neither branch |
| MessageRoutes.AcceptMakesContact | server/routes/messageRoutes.ts:35-37 | accepting an application on a hospital's job makes the doctor that hospital's contact |
| MessageRoutes.OnlyAcceptedDoctorIsContact | server/routes/messageRoutes.ts:32-38 | with two jobs of one hospital, one accepted and one pending application, the contacts are exactly the accepted doctor |
| MessageRoutes.History | server/routes/messageRoutes.ts:61-78 | lists exactly the messages between the two users in either direction, each as often as stored, oldest first |
| MessageRoutes.HistorySymmetric | server/routes/messageRoutes.ts:66-70 | both participants get the same conversation |
| MessageRoutes.SendMessage | server/routes/messageRoutes.ts:81-99 | 400 exactly when the content is missing or empty or the receiver is missing or 0, appending nothing; otherwise one unread message from the caller is appended under the next id; the receiver is not checked |
| MessageRoutes.SendTouchesOneConversation | server/routes/messageRoutes.ts:90-93 | a sent message joins its own conversation and leaves every other conversation unchanged |
| DocumentRoutes.DocumentTitle | server/routes/documentRoutes.ts:55 | the title is `file_name` when it is truthy, else the file's original name |
| DocumentRoutes.UploadDocument | server/routes/documentRoutes.ts:41-62 | 400 without a file, checked before the role; then 403 unless the caller is a hospital or an admin; otherwise one document is appended with the caller as uploader, the recipient and month as sent, the stored path and the title; nothing else changes |
| DocumentRoutes.ReceivedMember | server/routes/documentRoutes.ts:67-72 | the `/mine` join gives exactly the documents addressed to the caller whose sender exists, with the sender's name |
| DocumentRoutes.SentMember | server/routes/documentRoutes.ts:85-90 | the `/sent` join gives exactly the caller's uploads whose recipient exists, with the recipient's name |
| DocumentRoutes.Mine | server/routes/documentRoutes.ts:65-80 | `/mine` lists exactly those received rows, newest first |
| DocumentRoutes.Sent | server/routes/documentRoutes.ts:83-98 | `/sent` lists exactly those sent rows, newest first |
| DocumentRoutes.DocumentVisibility | server/routes/documentRoutes.ts:65-98 | a document from H to P appears in H's sent list and P's received list, and in no one else's received list |
| DocumentRoutes.EmployeesAreContacts | server/routes/documentRoutes.ts:102-118 | `/my-employees` has the same user ids as the hospital branch of `/contacts` |
| UserRoutes.GetMe | server/routes/userRoutes.ts:44-56 | 404 `User not found` exactly when the caller's row is gone; otherwise that row |
| UserRoutes.ListColumn | server/routes/userRoutes.ts:73-74 | an array is stored as its JSON text, any other truthy value as it is, and a missing or empty one as `[]` |
| UserRoutes.ProfileUpdateScope | server/routes/userRoutes.ts:66-87 | the update keeps id, email, role, tier, verification, avatar and specialty; the password changes only when one is given, and then to its hash |
| UserRoutes.ProfileAssignmentsRun | server/routes/userRoutes.ts:66-75 | the seven assignments `$1`…`$7` set the seven profile fields from the body |
| UserRoutes.PlanProfileUpdate | server/routes/userRoutes.ts:59-90 | 400 exactly when a password is given that differs from its confirmation; otherwise the `WHERE` placeholder is the last parameter and names the caller (`$8` without a password, `$9` with one), placeholders are numbered in order, the password is assigned exactly when given, and running the statement on any row yields the intended profile update |
| UserRoutes.PlanRuns | server/routes/userRoutes.ts:66-90 | the assembled `SET` list, with or without the password, computes the intended profile update |
| UserRoutes.UpdateMe | server/routes/userRoutes.ts:59-98 | the password check first; then only the caller's row is rewritten, to the intended profile update; with the row gone nothing changes and no row comes back |
| UserRoutes.UploadAvatar | server/routes/userRoutes.ts:101-114 | 400 exactly without a file; otherwise `avatar_url` becomes `/uploads/` plus the stored name, on the caller's row only |
| ProfilePage.FirstFilled | src/pages/Profile.tsx:64 | `a \|\| b \|\| … \|\| ''` is empty exactly when no candidate is truthy, and otherwise is the first truthy candidate |
| ProfilePage.InitialProfile | src/pages/Profile.tsx:53-67 | the form starts from the user's name, email, specialties and experiences; phone, avatar, bio and location are the user's when truthy and empty otherwise; the registration is the first truthy of registration, CRM and COREN |
| ProfilePage.RegistrationFallsBackToCrm | src/pages/Profile.tsx:64 | with no registration, the CRM is used |
| ProfilePage.SpecialtyAdded | src/pages/Profile.tsx:74-83 | the trimmed input is appended exactly when it is non-empty and not yet listed; otherwise the list is unchanged |
| ProfilePage.SpecialtiesStayDistinct | src/pages/Profile.tsx:76-80 | adding never creates a duplicate |
| ProfilePage.SpecialtyAddIdempotent | src/pages/Profile.tsx:74-83 | adding the same input twice adds it once |
| ProfilePage.SpecialtyRemoved | src/pages/Profile.tsx:85-90 | removal drops every equal entry and keeps the rest in order |
| ProfilePage.RemoveUndoesAdd | src/pages/Profile.tsx:74-90 | removing a specialty just added restores the list |
| ProfilePage.ExperienceOf | src/pages/Profile.tsx:105-112 | the new entry carries the fresh id and all five of the draft's texts as typed, end date and description included |
| ProfilePage.ExperienceRemoved | src/pages/Profile.tsx:120-125 | removal drops exactly the entries with that id and keeps the rest in order |
| ProfilePage.RemoveUndoesAddExperience | src/pages/Profile.tsx:113-125 | removing an entry just prepended under a fresh id restores the list |
| ProfilePage.ProfileForm.constructor | src/pages/Profile.tsx:53-67 | the form opens on the initial profile with an empty specialty box and an empty draft |
| ProfilePage.ProfileForm.AddSpecialty | src/pages/Profile.tsx:74-83 | updates the list as `SpecialtyAdded` does, and clears the box only when the list changed; keeps the list duplicate-free |
| ProfilePage.ProfileForm.RemoveSpecialty | src/pages/Profile.tsx:85-90 | updates the list as `SpecialtyRemoved` does and keeps it duplicate-free; nothing else changes |
| ProfilePage.ProfileForm.AddExperience | src/pages/Profile.tsx:100-118 | an incomplete draft (blank trimmed hospital or position, or no start date) gives the error and changes nothing; a complete one is put first under the fresh id and the draft is reset |
| ProfilePage.ProfileForm.RemoveExperience | src/pages/Profile.tsx:120-125 | updates the list as `ExperienceRemoved` does; nothing else changes |
| HospitalDashboard.IsFreeMatchesServerTier | src/pages/DashboardHospital.tsx:291 | the client's `isFree` agrees with the server's tier default |
| HospitalDashboard.UpgradeGateMirrorsQuota | src/pages/DashboardHospital.tsx:289-297 | given the hospital's own job list, the upgrade prompt shows exactly when the server would refuse the job |
| HospitalDashboard.ClassifyCreate | src/pages/DashboardHospital.tsx:175-202 | ok means created; 403 with `LIMIT_REACHED` means the limit path; any other 403 is an error; any other status is the demo path; a thrown error is a connection error |
| HospitalDashboard.CreateResponseClassified | src/pages/DashboardHospital.tsx:178-190 | every answer `createJob` gives is classified as created or as the limit path, and only the limit path goes to pricing |
| HospitalDashboard.AfterFetch | src/pages/DashboardHospital.tsx:129-150 | an ok array replaces the list and selects its first job, keeping the selection when the array is empty; anything else shows the demo list |
| HospitalDashboard.FetchSelectsOwnJob | src/pages/DashboardHospital.tsx:135-137 | after a non-empty fetch the selected job is one of the caller's own |
| HospitalDashboard.OptimisticStatus | src/pages/DashboardHospital.tsx:204-207 | only the applicant with that id takes the new status; length, order and every other row are kept |
| HospitalDashboard.OptimisticMatchesServer | src/pages/DashboardHospital.tsx:204-209 | the optimistic change is the server's update seen through the rows |
| HospitalDashboard.OptimisticKeepsOthers | src/pages/DashboardHospital.tsx:205-207 | other applicants' rows are present afterwards exactly when they were before |
| DoctorDashboard.FilterJobs | src/pages/DashboardDoctor.tsx:157-161 | a row is kept exactly when the term occurs, ignoring case, in its title, location or hospital name; the result is an ordered subsequence |
| DoctorDashboard.EmptySearchKeepsAll | src/pages/DashboardDoctor.tsx:157-161 | an empty search shows every job, in order |
| DoctorDashboard.TitleFindsJob | src/pages/DashboardDoctor.tsx:157-158 | a job is found by its own title, in either case |
| DoctorDashboard.Shown | src/pages/DashboardDoctor.tsx:117-145 | fetched rows are shown exactly when they form a non-empty array; otherwise the demo rows |
| DoctorDashboard.EmptyBoardShowsDemo | src/pages/DashboardDoctor.tsx:121-127 | an empty board from the server is replaced by the demo rows |
| DoctorDashboard.DecimalText | src/pages/DashboardDoctor.tsx:152 | the job id is printed as decimal digits without a leading zero that denote the id |
| DoctorDashboard.HandleApply | src/pages/DashboardDoctor.tsx:151-155 | the only effect is a toast, and only after confirmation; no request is made |
| DoctorDashboard.StatusLabel | src/pages/DashboardDoctor.tsx:413 | `accepted` reads `Aprovado`, `rejected` reads `Recusado`, anything else reads `Em Análise` |
| DoctorDashboard.LabelsDistinguishStatuses | src/pages/DashboardDoctor.tsx:413 | the three statuses get three different labels; pending reads `Em Análise` |
| DocumentsPage.DocumentsEndpoint | src/pages/Documents.tsx:59 | `/documents/sent` exactly for a hospital, `/documents/mine` otherwise |
| DocumentsPage.EmployeesOnlyWithSentList | src/pages/Documents.tsx:48-59 | the employee list is fetched exactly when the sent list is shown |
| DocumentsPage.HandleUpload | src/pages/Documents.tsx:97-108 | refused with `Preencha todos os campos.` exactly when the file, employee or month is missing; otherwise exactly `document`, `user_id` and `month`, in that order |
| DocumentsPage.TextField | src/pages/Documents.tsx:105-108 | a named text field is found exactly when the form holds one, and the value found is that field's |
| DocumentsPage.UploadTitleIsOriginalName | src/pages/Documents.tsx:105-110 | the page sends no `file_name`, so the stored title is the file's original name, and the month arrives as typed |
| DocumentsPage.FilterDocs | src/pages/Documents.tsx:133-137 | a document is kept exactly when the term occurs, ignoring case, in its title or in a non-empty recipient or sender name; the result is an ordered subsequence |
| DocumentsPage.EmptyDocSearchKeepsAll | src/pages/Documents.tsx:133-137 | an empty search shows every document, in order |
| DocumentsPage.RecipientNameFindsSent | src/pages/Documents.tsx:135 | searching a recipient's name, in either case, finds the documents sent to that recipient |
| DocumentsPage.ReceivedMatchIgnoresRecipient | src/pages/Documents.tsx:133-137 | on a received document only the title and the sender's name take part |
| RegisterPage.Payload | src/pages/Register.tsx:44-59 | registration is the CRM for a doctor, the COREN for a nurse and the CNPJ for a hospital; location is the address only for a hospital; specialties is `[specialty]` exactly when one is typed; experiences is empty |
| RegisterPage.PayloadIgnoresOtherRoles | src/pages/Register.tsx:45-46 | a doctor's payload does not depend on the COREN, CNPJ or address boxes |
| RegisterPage.RedirectAfterSignup | src/pages/Register.tsx:70-77 | hospital goes to `/hospital`, doctor to `/doctor`, anyone else to `/profile` |
| RegisterPage.SignupLandsOnAdmittingPage | src/pages/Register.tsx:71-77 | the page opened after sign-up is protected and renders for the new user's role |
| AppRoutes.ProtectedRoute | src/App.tsx:21-33 | to `/login` exactly without a session flag and without a token; to `/` exactly when signed in, roles are listed, and a user is known whose role is not listed; otherwise the page |
| AppRoutes.AllowedRoles | src/App.tsx:49-98 | only protected pages carry a role list |
| AppRoutes.Visit | src/App.tsx:49-98 | a protected page goes through the guard with its role list; any other page renders |
| AppRoutes.DashboardAdmitsOnlyItsRole | src/App.tsx:49-74 | each dashboard renders for a signed-in user exactly when it is that user's role's dashboard, and sends any other role home |
| AppRoutes.TokenWithoutUserRendersEverything | src/App.tsx:24-32 | a token with no user object yet passes every guard |
| AppRoutes.SignedOutGoesToLogin | src/App.tsx:24-26 | signed out and without a token, every protected page goes to login |
| AppRoutes.SharedPagesAdmitEveryRole | src/App.tsx:75-98 | profile, documents and chat render for every signed-in user |
| Toasts.WithoutId | src/context/ToastContext.tsx:41-43 | exactly the toasts with other ids, in their order |
| Toasts.RemoveAbsentIsNoOp | src/context/ToastContext.tsx:41-43 | removing an id that is not shown changes nothing |
| Toasts.AddThenRemove | src/context/ToastContext.tsx:31-43 | adding under a fresh id and then removing that id restores the list |
| Toasts.RemoveIdempotent | src/context/ToastContext.tsx:41-43 | removing twice is removing once |
| Toasts.ToastStore.constructor | src/context/ToastContext.tsx:29 | the list starts empty |
| Toasts.ToastStore.AddToast | src/context/ToastContext.tsx:31-33 | the new toast goes last and the earlier toasts are unchanged |
| Toasts.ToastStore.RemoveToast | src/context/ToastContext.tsx:41-43 | the list becomes the one without that id; an absent id changes nothing; afterwards no toast has that id |

## Left out

- Database failures and the 500 answers on every `catch`: the in-memory tables cannot fail.
- Foreign keys and the rest of the schema file, which is not part of this model. A `job_id` or `receiver_id` naming no row is inserted rather than rejected.
- The defaults of the schema file. The model assumes a new job is `open` and a new message is unread.
- Ids that arrive as text (`req.params`, form fields). A non-numeric id, which the database would reject with a 500, is not modelled: ids are numbers.
- JSON response shapes. Errors carry a status and a text, whether the source sends that text as `message` or as `error`.
- `UserRoutes.GetMe` and `UserRoutes.UpdateMe`: they return the whole stored row, not the column list of `SELECT` or `RETURNING`.
- JWT signing and verification, and the different fallback secrets of the route copies. Verification is a parameter.
- `bcrypt`. The hash is a parameter.
- Multer's disk storage and file names, and the file an upload leaves on disk when the role check then refuses it.
- `DocumentRoutes.UploadDocument`: takes the recipient as an optional number and does not model a non-numeric `user_id`.
- The clock. `created_at` is a natural number supplied by the caller, and the job `date` is a day number.
- The read-count-then-insert race in `createJob`. Requests are taken one at a time.
- `Ordering.SortBy`: the order among rows with equal keys is whatever the insertion sort gives. Contracts state only that the result is sorted and holds the same rows, since SQL promises nothing about ties.
- `DocumentRoutes.Mine`, `DocumentRoutes.Sent`, `ApplicationController.JobApplications`: these state which rows are listed and their order, but not each row's multiplicity. Under the serial key each application and document is stored once.
- `MessageRoutes.HistorySymmetric`: equality holds in the model, but the database may order messages with equal timestamps differently on two calls.
- `MessageRoutes.Contacts` and `DocumentRoutes.EmployeesAreContacts`: `DISTINCT` results are sets, so their row order is not modelled.
- Unicode. Whitespace, lower-casing and substring search cover ASCII only.
- `DoctorDashboard.FilterJobs`: a board row with a NULL hospital name makes `toLowerCase` throw in the page. The model treats it as not matching.
- The toast auto-removal timer, the `Math.random` toast ids and `crypto.randomUUID`. Ids are parameters.
- The contents of the demo lists (`MOCK_JOBS`, `MOCK_APPLICATIONS`). They are parameters. `HospitalDashboard.AfterFetch` selects the first demo job only when the demo list is non-empty.
- `loadApplications` on the hospital dashboard, the PATCH request behind the optimistic update, and its error path.
- `RegisterPage.Payload`: the page's role type has no `admin`, so it is not modelled separately. An admin would take the CNPJ and the empty location, as the `else` branches give.
- The Chat, Login, Landing, Pricing, admin dashboard and legal pages, the cookie banner, the fetch wrappers, the server bootstrap and admin seeding. These are I/O, polling and presentation only.
