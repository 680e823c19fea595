/** The profile editor: a form over the signed-in user's profile whose
    skill and availability lists are edited entry by entry. */
module ProfilePage {
  import opened Collections
  import opened Text
  import opened UserRoutes

  /** The signed-in user as the client holds them; the lists are the names
      and descriptions the server's view shows. */
  datatype Account = Account(
    name: string,
    location: Option<string>,
    profilePhoto: Option<string>,
    skillsOffered: seq<string>,
    skillsWanted: seq<string>,
    availability: seq<string>,
    isPublic: bool)

  /** The edited fields of the form. */
  datatype FormData = FormData(
    name: string,
    location: string,
    profilePhoto: string,
    skillsOffered: seq<string>,
    skillsWanted: seq<string>,
    availability: seq<string>,
    isPublic: bool)

  /** `x || ''` on an optional string. */
  function OrBlank(s: Option<string>): string {
    if s.Some? then s.value else ""
  }

  /** The form filled from a user: missing text is empty; with no user the
      page opens on an empty, public form. */
  function FormOf(a: Option<Account>): (f: FormData)
    ensures a.None? ==> f == FormData("", "", "", [], [], [], true)
    ensures a.Some? ==> (f.name == a.value.name && f.skillsOffered == a.value.skillsOffered &&
      f.skillsWanted == a.value.skillsWanted && f.availability == a.value.availability)
    ensures a.Some? ==> (f.location == OrBlank(a.value.location) &&
      f.profilePhoto == OrBlank(a.value.profilePhoto) && f.isPublic == a.value.isPublic)
  {
    match a
    case None => FormData("", "", "", [], [], [], true)
    case Some(u) =>
      FormData(u.name, OrBlank(u.location), OrBlank(u.profilePhoto), u.skillsOffered, u.skillsWanted, u.availability,
        u.isPublic)
  }

  /** No entry appears twice. */
  predicate Distinct(xs: seq<string>) {
    forall i, j :: 0 <= i < j < |xs| ==> xs[i] != xs[j]
  }

  /** The add rule of every list: the trimmed input is appended and the input
      cleared when it is non-blank and not yet listed; otherwise list and
      input stay as they are. */
  function AddEntry(list: seq<string>, input: string): (seq<string>, string) {
    var entry := Trim(input);
    if entry != "" && entry !in list then (list + [entry], "") else (list, input)
  }

  /** Adding never introduces a duplicate. */
  lemma AddKeepsDistinct(list: seq<string>, input: string)
    requires Distinct(list)
    ensures Distinct(AddEntry(list, input).0)
  {
  }

  /** Adding the same text twice lists it once: the second add changes nothing. */
  lemma AddTwiceOnce(list: seq<string>, input: string)
    ensures AddEntry(AddEntry(list, input).0, input).0 == AddEntry(list, input).0
  {
    if Trim(input) != "" && Trim(input) !in list {
      assert Trim(input) in list + [Trim(input)];
    }
  }

  /** A run of adds, each with the input left by the one before it being
      replaced by the next typed text. */
  function AddAll(list: seq<string>, inputs: seq<string>): seq<string>
    decreases |inputs|
  {
    if inputs == [] then list else AddAll(AddEntry(list, inputs[0]).0, inputs[1..])
  }

  /** From a list without duplicates, any run of adds keeps it without
      duplicates and only appends. */
  lemma {:induction false} AddAllKeepsDistinct(list: seq<string>, inputs: seq<string>)
    requires Distinct(list)
    ensures Distinct(AddAll(list, inputs))
    ensures |list| <= |AddAll(list, inputs)| && AddAll(list, inputs)[..|list|] == list
    decreases |inputs|
  {
    if inputs != [] {
      var next := AddEntry(list, inputs[0]).0;
      AddKeepsDistinct(list, inputs[0]);
      AddAllKeepsDistinct(next, inputs[1..]);
      assert next[..|list|] == list;
    }
  }

  /** Every added entry is non-empty and already trimmed, so the server's
      normalisation keeps the list as it is. */
  lemma AddKeepsClean(list: seq<string>, input: string)
    requires forall i :: 0 <= i < |list| ==> Clean(list[i])
    ensures forall i :: 0 <= i < |AddEntry(list, input).0| ==> Clean(AddEntry(list, input).0[i])
    ensures Entries(AddEntry(list, input).0) == AddEntry(list, input).0
  {
    var r := AddEntry(list, input).0;
    var e := Trim(input);
    if e != "" && e !in list {
      TrimIdempotent(input);
      assert Clean(e);
      assert r == list + [e];
      forall i | 0 <= i < |r| ensures Clean(r[i]) {
        if i < |list| {
          assert r[i] == list[i];
        }
      }
    } else {
      assert r == list;
    }
    EntriesOfClean(r);
  }

  /** `prev.list.filter((_, i) => i !== index)`. */
  lemma RemoveKeepsDistinct(list: seq<string>, index: int)
    requires Distinct(list)
    ensures Distinct(RemoveAt(list, index))
    ensures forall x :: x in RemoveAt(list, index) ==> x in list
  {
    var r := RemoveAt(list, index);
    if 0 <= index < |list| {
      forall a, b | 0 <= a < b < |r| ensures r[a] != r[b] {
        RemovedAt(list, index, a);
        RemovedAt(list, index, b);
      }
      forall x | x in r ensures x in list {
        var a :| 0 <= a < |r| && r[a] == x;
        RemovedAt(list, index, a);
      }
    }
  }

  /** The page's state: the form, the three inputs for new entries and the
      editing switch. */
  class ProfileForm {
    const current: Option<Account>
    var form: FormData
    var newSkillOffered: string
    var newSkillWanted: string
    var newAvailability: string
    var isEditing: bool

    constructor(current: Option<Account>)
      ensures this.current == current && form == FormOf(current)
      ensures newSkillOffered == "" && newSkillWanted == "" && newAvailability == "" && !isEditing
    {
      this.current := current;
      form := FormOf(current);
      newSkillOffered := "";
      newSkillWanted := "";
      newAvailability := "";
      isEditing := false;
    }

    /** `addSkillOffered`. */
    method AddSkillOffered()
      modifies this
      ensures (form.skillsOffered, newSkillOffered) == AddEntry(old(form.skillsOffered), old(newSkillOffered))
      ensures form == old(form).(skillsOffered := form.skillsOffered)
      ensures newSkillWanted == old(newSkillWanted) && newAvailability == old(newAvailability) && isEditing == old(isEditing)
    {
      var entry := Trim(newSkillOffered);
      if entry != "" && entry !in form.skillsOffered {
        form := form.(skillsOffered := form.skillsOffered + [entry]);
        newSkillOffered := "";
      }
    }

    /** `addSkillWanted`. */
    method AddSkillWanted()
      modifies this
      ensures (form.skillsWanted, newSkillWanted) == AddEntry(old(form.skillsWanted), old(newSkillWanted))
      ensures form == old(form).(skillsWanted := form.skillsWanted)
      ensures newSkillOffered == old(newSkillOffered) && newAvailability == old(newAvailability) && isEditing == old(isEditing)
    {
      var entry := Trim(newSkillWanted);
      if entry != "" && entry !in form.skillsWanted {
        form := form.(skillsWanted := form.skillsWanted + [entry]);
        newSkillWanted := "";
      }
    }

    /** `addAvailability`. */
    method AddAvailability()
      modifies this
      ensures (form.availability, newAvailability) == AddEntry(old(form.availability), old(newAvailability))
      ensures form == old(form).(availability := form.availability)
      ensures newSkillOffered == old(newSkillOffered) && newSkillWanted == old(newSkillWanted) && isEditing == old(isEditing)
    {
      var entry := Trim(newAvailability);
      if entry != "" && entry !in form.availability {
        form := form.(availability := form.availability + [entry]);
        newAvailability := "";
      }
    }

    /** `removeSkillOffered`: drops position `index`, if there is one. */
    method RemoveSkillOffered(index: int)
      modifies this
      ensures form == old(form).(skillsOffered := RemoveAt(old(form.skillsOffered), index))
      ensures newSkillOffered == old(newSkillOffered) && newSkillWanted == old(newSkillWanted)
      ensures newAvailability == old(newAvailability) && isEditing == old(isEditing)
    {
      form := form.(skillsOffered := RemoveAt(form.skillsOffered, index));
    }

    /** `removeSkillWanted`. */
    method RemoveSkillWanted(index: int)
      modifies this
      ensures form == old(form).(skillsWanted := RemoveAt(old(form.skillsWanted), index))
      ensures newSkillOffered == old(newSkillOffered) && newSkillWanted == old(newSkillWanted)
      ensures newAvailability == old(newAvailability) && isEditing == old(isEditing)
    {
      form := form.(skillsWanted := RemoveAt(form.skillsWanted, index));
    }

    /** `removeAvailability`. */
    method RemoveAvailability(index: int)
      modifies this
      ensures form == old(form).(availability := RemoveAt(old(form.availability), index))
      ensures newSkillOffered == old(newSkillOffered) && newSkillWanted == old(newSkillWanted)
      ensures newAvailability == old(newAvailability) && isEditing == old(isEditing)
    {
      form := form.(availability := RemoveAt(form.availability, index));
    }

    /** `handleCancel`: every field is reset to the stored user's values and
        editing ends. The page renders nothing without a signed-in user, so
        there is one whenever the button exists. */
    method HandleCancel()
      requires current.Some?
      modifies this
      ensures form == FormOf(current) && !isEditing
      ensures newSkillOffered == old(newSkillOffered) && newSkillWanted == old(newSkillWanted)
      ensures newAvailability == old(newAvailability)
    {
      var u := current.value;
      form := FormData(u.name, OrBlank(u.location), OrBlank(u.profilePhoto),
        u.skillsOffered, u.skillsWanted, u.availability, u.isPublic);
      isEditing := false;
    }
  }
}
