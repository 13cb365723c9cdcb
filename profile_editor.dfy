/** The profile editor: name, bio and a list of interests that grows by
    appending a trimmed name under a clock id and shrinks by id. The avatar
    upload and the save alert are outside the model. */
module ProfileEditor {
  import opened Seqs
  import opened Text

  datatype Interest = Interest(id: string, name: string)

  const SeedInterests: seq<Interest> :=
    [ Interest("1", "Technology"), Interest("2", "Design"), Interest("3", "Photography") ]

  /** The list after the add button with input `input` and the clock id
      `id`: a blank input leaves it as it was, any other input appends one
      interest with the trimmed name and leaves the others in place. */
  function AddInterest(interests: seq<Interest>, input: string, id: string): (r: seq<Interest>)
    ensures Trim(input) == [] ==> r == interests
    ensures Trim(input) != [] ==> |r| == |interests| + 1 && r[..|interests|] == interests
    ensures Trim(input) != [] ==> r[|interests|] == Interest(id, Trim(input)) && r[|interests|].name != []
  {
    if Trim(input) == [] then interests else interests + [Interest(id, Trim(input))]
  }

  /** The filter condition of a removal: the interest has another id. */
  function Other(id: string): Interest -> bool {
    (x: Interest) => x.id != id
  }

  /** The list after the remove button of `id`: every interest with that id
      goes, the others stay in their order. */
  function RemoveInterest(interests: seq<Interest>, id: string): (r: seq<Interest>)
    ensures forall x :: x in r <==> x in interests && x.id != id
    ensures |r| <= |interests|
    ensures Selects(r, interests, Other(id))
  {
    FilterSelects(Other(id), interests);
    Filter(Other(id), interests)
  }

  /** Removing an id that no interest carries changes nothing. */
  lemma RemoveAbsent(interests: seq<Interest>, id: string)
    requires forall i :: 0 <= i < |interests| ==> interests[i].id != id
    ensures RemoveInterest(interests, id) == interests
  {
    assert forall i :: 0 <= i < |interests| ==> Other(id)(interests[i]);
    FilterAll(Other(id), interests);
  }

  /** Removing an interest just added under a new id gives back the list
      from before the add. */
  lemma RemoveUndoesAdd(interests: seq<Interest>, input: string, id: string)
    requires forall i :: 0 <= i < |interests| ==> interests[i].id != id
    ensures RemoveInterest(AddInterest(interests, input, id), id) == interests
  {
    RemoveAbsent(interests, id);
    if Trim(input) != [] {
      var added := Interest(id, Trim(input));
      assert forall i :: 0 <= i < |interests| ==> Other(id)(interests[i]);
      FilterDropsOne(Other(id), interests, added, []);
      assert interests + [added] + [] == interests + [added];
      assert interests + [] == interests;
    }
  }

  /** The bio shown at mount. */
  const SeedBio: string :=
    "I'm a software developer interested " +
    "in UI/UX design and web technologies."

  /** The widget's state fields (the avatar is left out). */
  class Store {
    var name: string
    var bio: string
    var interests: seq<Interest>
    var newInterest: string

    constructor ()
      ensures name == "Tamanna"
      ensures bio == SeedBio
      ensures interests == SeedInterests && newInterest == ""
    {
      name := "Tamanna";
      bio := SeedBio;
      interests := SeedInterests;
      newInterest := "";
    }

    method SetName(text: string)
      modifies this`name
      ensures name == text
    {
      name := text;
    }

    method SetBio(text: string)
      modifies this`bio
      ensures bio == text
    {
      bio := text;
    }

    method SetNewInterest(text: string)
      modifies this`newInterest
      ensures newInterest == text
    {
      newInterest := text;
    }

    /** The add button, with `id` the clock reading. A blank input changes
        nothing; otherwise the interest is appended and the input clears. */
    method HandleAddInterest(id: string) returns (added: bool)
      modifies this`interests, this`newInterest
      ensures added <==> Trim(old(newInterest)) != []
      ensures interests == AddInterest(old(interests), old(newInterest), id)
      ensures newInterest == if added then "" else old(newInterest)
    {
      added := Trim(newInterest) != [];
      interests := AddInterest(interests, newInterest, id);
      if added {
        newInterest := "";
      }
    }

    method HandleRemoveInterest(id: string)
      modifies this`interests
      ensures interests == RemoveInterest(old(interests), id)
    {
      interests := RemoveInterest(interests, id);
    }

    /** A key in the interest input: Enter does what the add button does,
        any other key changes nothing. */
    method HandleKeyDown(key: string, id: string) returns (added: bool)
      modifies this`interests, this`newInterest
      ensures key != "Enter" ==> !added && interests == old(interests) && newInterest == old(newInterest)
      ensures key == "Enter" ==>
        && (added <==> Trim(old(newInterest)) != [])
        && interests == AddInterest(old(interests), old(newInterest), id)
        && newInterest == if added then "" else old(newInterest)
    {
      added := false;
      if key == "Enter" {
        added := HandleAddInterest(id);
      }
    }
  }
}
