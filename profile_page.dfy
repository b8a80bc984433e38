/** The profile page's form state: the profile being edited, the specialty
    input box and the draft experience, with the edits the page offers. */
module ProfilePage {
  import opened Common
  import opened Text
  import opened Seqs
  import opened ClientTypes

  datatype ProfileData = ProfileData(
    name: string,
    email: string,
    phone: string,
    avatarUrl: string,
    bio: string,
    specialties: seq<string>,
    experiences: seq<Experience>,
    location: string,
    registration: string)

  /** `a || b || ... || ''`: the first candidate that is present and non-empty. */
  function FirstFilled(candidates: seq<Option<string>>): (r: string)
    ensures r == "" <==> forall i | 0 <= i < |candidates| :: !Truthy(candidates[i])
    ensures r != "" ==> exists i | 0 <= i < |candidates| ::
      Truthy(candidates[i]) && r == candidates[i].value && forall k | 0 <= k < i :: !Truthy(candidates[k])
  {
    if candidates == [] then ""
    else if Truthy(candidates[0]) then candidates[0].value
    else
      var r := FirstFilled(candidates[1..]);
      assert r != "" ==> exists i | 0 <= i < |candidates| ::
        Truthy(candidates[i]) && r == candidates[i].value && forall k | 0 <= k < i :: !Truthy(candidates[k]) by {
        if r != "" {
          var i :| 0 <= i < |candidates[1..]| && Truthy(candidates[1..][i]) && r == candidates[1..][i].value &&
            forall k | 0 <= k < i :: !Truthy(candidates[1..][k]);
          assert candidates[i + 1] == candidates[1..][i];
          assert forall k | 0 < k < i + 1 :: candidates[k] == candidates[1..][k - 1];
        }
      }
      assert r == "" ==> forall i | 0 <= i < |candidates| :: !Truthy(candidates[i]) by {
        if r == "" {
          assert forall i | 0 < i < |candidates| :: candidates[i] == candidates[1..][i - 1];
        }
      }
      r
  }

  /** The profile the page starts from: the signed-in user's fields, missing
      ones as empty, and the registration number taken from `registration`,
      else `crm`, else `coren`. */
  function InitialProfile(u: SessionUser): (p: ProfileData)
    ensures p.registration == FirstFilled([u.registration, u.crm, u.coren])
    ensures p.specialties == u.specialties.GetOr([]) && p.experiences == u.experiences.GetOr([])
    ensures p.name == u.name && p.email == u.email
    ensures p.phone == (if Truthy(u.phone) then u.phone.value else "")
    ensures p.avatarUrl == (if Truthy(u.avatarUrl) then u.avatarUrl.value else "")
    ensures p.bio == (if Truthy(u.bio) then u.bio.value else "")
    ensures p.location == (if Truthy(u.location) then u.location.value else "")
  {
    ProfileData(
      u.name, u.email, OrElse(u.phone, Some("")).value, OrElse(u.avatarUrl, Some("")).value,
      OrElse(u.bio, Some("")).value, u.specialties.GetOr([]), u.experiences.GetOr([]),
      OrElse(u.location, Some("")).value, FirstFilled([u.registration, u.crm, u.coren]))
  }

  /** A doctor's CRM is used when the registration column is empty. */
  lemma RegistrationFallsBackToCrm(u: SessionUser)
    requires !Truthy(u.registration) && Truthy(u.crm)
    ensures InitialProfile(u).registration == u.crm.value
  {
    var c := [u.registration, u.crm, u.coren];
    var r := FirstFilled(c);
    assert Truthy(c[1]);
    var i :| 0 <= i < |c| && Truthy(c[i]) && r == c[i].value && forall k | 0 <= k < i :: !Truthy(c[k]);
  }

  /** Each value at most once. */
  predicate Distinct(s: seq<string>) {
    forall i, j | 0 <= i < j < |s| :: s[i] != s[j]
  }

  /** `handleAddSpecialty` on the list: the trimmed input is appended when it
      is non-empty and not already listed. */
  function SpecialtyAdded(specs: seq<string>, input: string): (r: seq<string>)
    ensures Trim(input) == "" || Trim(input) in specs ==> r == specs
    ensures Trim(input) != "" && Trim(input) !in specs ==> r == specs + [Trim(input)]
  {
    var val := Trim(input);
    if val != "" && val !in specs then specs + [val] else specs
  }

  /** The specialty list never gets a duplicate. */
  lemma SpecialtiesStayDistinct(specs: seq<string>, input: string)
    requires Distinct(specs)
    ensures Distinct(SpecialtyAdded(specs, input))
  {
    var r := SpecialtyAdded(specs, input);
    if r != specs {
      forall i, j | 0 <= i < j < |r| ensures r[i] != r[j] {
        if j == |specs| { assert r[i] in specs; }
      }
    }
  }

  /** Adding the same input twice adds it once. */
  lemma SpecialtyAddIdempotent(specs: seq<string>, input: string)
    ensures SpecialtyAdded(SpecialtyAdded(specs, input), input) == SpecialtyAdded(specs, input)
  {
    var r := SpecialtyAdded(specs, input);
    if Trim(input) != "" && Trim(input) !in specs {
      assert r[|specs|] == Trim(input);
    }
  }

  /** `handleRemoveSpecialty`: every entry equal to `spec` goes, the rest stay in order. */
  function SpecialtyRemoved(specs: seq<string>, spec: string): (r: seq<string>)
    ensures spec !in r
    ensures forall s :: s in r <==> s in specs && s != spec
    ensures Subseq(r, specs)
  {
    Filter(specs, (s: string) => s != spec)
  }

  /** Removing a specialty just added gives back the list before. */
  lemma RemoveUndoesAdd(specs: seq<string>, input: string)
    requires Trim(input) != "" && Trim(input) !in specs
    ensures SpecialtyRemoved(SpecialtyAdded(specs, input), Trim(input)) == specs
  {
    var p := (s: string) => s != Trim(input);
    FilterAppend(specs, [Trim(input)], p);
    FilterKeepsAll(specs, p);
    assert Filter([Trim(input)], p) == [];
    assert specs + [] == specs;
  }

  /** The experience entry form. */
  datatype ExperienceDraft = ExperienceDraft(
    hospital: string, position: string, startDate: string, endDate: string, description: string)

  const EmptyDraft := ExperienceDraft("", "", "", "", "")
  const ExperienceRequired := "Hospital, cargo e data inicial são obrigatórios"

  /** Hospital and position must be non-blank after trimming, and a start date given. */
  predicate DraftComplete(d: ExperienceDraft) {
    Trim(d.hospital) != "" && Trim(d.position) != "" && d.startDate != ""
  }

  /** The entry a complete draft becomes; its texts are kept as typed, untrimmed. */
  function ExperienceOf(d: ExperienceDraft, id: string): (e: Experience)
    ensures e.id == id && e.hospital == d.hospital && e.position == d.position && e.startDate == d.startDate
    ensures e.endDate == Some(d.endDate) && e.description == Some(d.description)
  {
    Experience(id, d.hospital, d.position, d.startDate, Some(d.endDate), Some(d.description))
  }

  /** `removeExperience`: every entry with that id goes, the rest stay in order. */
  function ExperienceRemoved(exps: seq<Experience>, id: string): (r: seq<Experience>)
    ensures forall e :: e in r <==> e in exps && e.id != id
    ensures Subseq(r, exps)
  {
    Filter(exps, (e: Experience) => e.id != id)
  }

  /** Removing an entry just added, under a fresh id, gives back the list before. */
  lemma RemoveUndoesAddExperience(exps: seq<Experience>, d: ExperienceDraft, id: string)
    requires forall e | e in exps :: e.id != id
    ensures ExperienceRemoved([ExperienceOf(d, id)] + exps, id) == exps
  {
    var p := (e: Experience) => e.id != id;
    FilterAppend([ExperienceOf(d, id)], exps, p);
    FilterKeepsAll(exps, p);
    assert Filter([ExperienceOf(d, id)], p) == [];
    assert [] + exps == exps;
  }

  /** The page's editable state. */
  class ProfileForm {
    var profile: ProfileData
    var specialtyInput: string
    var newExp: ExperienceDraft

    /** The form as it opens for a signed-in user. */
    constructor (u: SessionUser)
      ensures profile == InitialProfile(u) && specialtyInput == "" && newExp == EmptyDraft
    {
      profile := InitialProfile(u);
      specialtyInput := "";
      newExp := EmptyDraft;
    }

    /** `handleAddSpecialty`: the input box is cleared only when the specialty
        was added; a blank or repeated entry stays in the box. */
    method AddSpecialty()
      modifies this
      ensures Distinct(old(profile.specialties)) ==> Distinct(profile.specialties)
      ensures profile == old(profile).(specialties := SpecialtyAdded(old(profile.specialties), old(specialtyInput)))
      ensures specialtyInput == if profile.specialties != old(profile.specialties) then "" else old(specialtyInput)
      ensures newExp == old(newExp)
    {
      var specs := SpecialtyAdded(profile.specialties, specialtyInput);
      if Distinct(profile.specialties) {
        SpecialtiesStayDistinct(profile.specialties, specialtyInput);
      }
      if specs != profile.specialties {
        specialtyInput := "";
      }
      profile := profile.(specialties := specs);
    }

    /** `handleRemoveSpecialty`. */
    method RemoveSpecialty(spec: string)
      modifies this
      ensures Distinct(old(profile.specialties)) ==> Distinct(profile.specialties)
      ensures profile == old(profile).(specialties := SpecialtyRemoved(old(profile.specialties), spec))
      ensures specialtyInput == old(specialtyInput) && newExp == old(newExp)
    {
      var kept := SpecialtyRemoved(profile.specialties, spec);
      if Distinct(profile.specialties) {
        SubseqDistinct(kept, profile.specialties);
      }
      profile := profile.(specialties := kept);
    }

    /** `addExperience`: an incomplete draft leaves everything as it is and
        raises the error toast; a complete one is put first in the list under
        the fresh id and the form is reset. */
    method AddExperience(id: string) returns (error: Option<string>)
      modifies this
      ensures error.Some? <==> !DraftComplete(old(newExp))
      ensures error.Some? ==> error.value == ExperienceRequired && profile == old(profile) && newExp == old(newExp)
      ensures error.None? ==>
        profile == old(profile).(experiences := [ExperienceOf(old(newExp), id)] + old(profile.experiences)) &&
        newExp == EmptyDraft
      ensures specialtyInput == old(specialtyInput)
    {
      if !DraftComplete(newExp) {
        return Some(ExperienceRequired);
      }
      var exp := ExperienceOf(newExp, id);
      profile := profile.(experiences := [exp] + profile.experiences);
      newExp := EmptyDraft;
      error := None;
    }

    /** `removeExperience`. */
    method RemoveExperience(id: string)
      modifies this
      ensures profile == old(profile).(experiences := ExperienceRemoved(old(profile.experiences), id))
      ensures specialtyInput == old(specialtyInput) && newExp == old(newExp)
    {
      profile := profile.(experiences := ExperienceRemoved(profile.experiences, id));
    }
  }

  /** Leaving entries out keeps a list without duplicates. */
  lemma {:induction false} SubseqDistinct(a: seq<string>, b: seq<string>)
    requires Subseq(a, b) && Distinct(b)
    ensures Distinct(a)
    decreases |b|
  {
    if a != [] && b != [] {
      if a[0] == b[0] {
        SubseqDistinct(a[1..], b[1..]);
        SubseqMember(a[1..], b[1..]);
        forall i, j | 0 <= i < j < |a| ensures a[i] != a[j] {
          if i == 0 {
            assert a[j] == a[1..][j - 1] && a[j] in b[1..];
          } else {
            assert a[i] == a[1..][i - 1] && a[j] == a[1..][j - 1];
          }
        }
      } else {
        SubseqDistinct(a, b[1..]);
      }
    }
  }

  /** Everything in a subsequence is in the sequence. */
  lemma {:induction false} SubseqMember(a: seq<string>, b: seq<string>)
    requires Subseq(a, b)
    ensures forall x | x in a :: x in b
    decreases |b|
  {
    if a != [] && b != [] {
      if a[0] == b[0] {
        SubseqMember(a[1..], b[1..]);
        assert forall x | x in a :: x == a[0] || x in a[1..];
      } else {
        SubseqMember(a, b[1..]);
      }
    }
  }
}
