/** The event RSVP card: the user's answer, an attendee list that holds at
    most one record for the user, the per-answer counts and the list of
    attendees shown as coming. */
module EventRSVP {
  import opened Seqs

  datatype Attendance = Going | Maybe | NotGoing

  /** An attendee; a `None` status is the source's `null`. */
  datatype Attendee = Attendee(id: string, name: string, status: Option<Attendance>)

  const You: string := "You"

  /** The attendees shown at mount. */
  const SeedAttendees: seq<Attendee> :=
    [ Attendee("1", "Alex Johnson", Some(Going)),
      Attendee("2", "Jamie Smith", Some(Going)),
      Attendee("3", "Taylor Brown", Some(Maybe)),
      Attendee("4", "Casey Wilson", Some(NotGoing)),
      Attendee("5", "Jordan Lee", Some(Going)) ]

  /** Some attendee is named "You". */
  predicate HasYou(attendees: seq<Attendee>) {
    exists i :: 0 <= i < |attendees| && attendees[i].name == You
  }

  /** The record appended on the user's first answer. */
  function YouRecord(s: Option<Attendance>): Attendee {
    Attendee("user", You, s)
  }

  /** The list after `handleRSVP(s)`: without a "You" record one is appended
      with the answer; with one, every "You" record takes the answer and every
      other attendee stays as it was. */
  function Rsvp(attendees: seq<Attendee>, s: Option<Attendance>): (r: seq<Attendee>)
    ensures !HasYou(attendees) ==> r == attendees + [YouRecord(s)]
    ensures HasYou(attendees) ==>
      && |r| == |attendees|
      && forall i :: 0 <= i < |r| ==>
           r[i] == if attendees[i].name == You then attendees[i].(status := s) else attendees[i]
  {
    if !HasYou(attendees) then attendees + [YouRecord(s)]
    else seq(|attendees|, i requires 0 <= i < |attendees| =>
           if attendees[i].name == You then attendees[i].(status := s) else attendees[i])
  }

  /** After an answer the list holds a "You" record, and every "You" record
      carries the answer. */
  lemma RsvpRecordsAnswer(attendees: seq<Attendee>, s: Option<Attendance>)
    ensures HasYou(Rsvp(attendees, s))
    ensures forall i :: 0 <= i < |Rsvp(attendees, s)| && Rsvp(attendees, s)[i].name == You ==>
      Rsvp(attendees, s)[i].status == s
  {
    var r := Rsvp(attendees, s);
    if !HasYou(attendees) {
      assert r[|attendees|].name == You;
    } else {
      var i :| 0 <= i < |attendees| && attendees[i].name == You;
      assert r[i].name == You;
    }
  }

  /** Answering the same way twice is the same as answering once. */
  lemma RsvpIdempotent(attendees: seq<Attendee>, s: Option<Attendance>)
    ensures Rsvp(Rsvp(attendees, s), s) == Rsvp(attendees, s)
  {
    RsvpRecordsAnswer(attendees, s);
  }

  /** At most one attendee is named "You". */
  ghost predicate AtMostOneYou(attendees: seq<Attendee>) {
    forall i, j ::
      (0 <= i < |attendees| && 0 <= j < |attendees| && attendees[i].name == You && attendees[j].name == You)
      ==> i == j
  }

  lemma SeedHasNoYou()
    ensures !HasYou(SeedAttendees) && AtMostOneYou(SeedAttendees)
  {
  }

  /** An answer never creates a second "You" record. */
  lemma RsvpKeepsOneYou(attendees: seq<Attendee>, s: Option<Attendance>)
    requires AtMostOneYou(attendees)
    ensures AtMostOneYou(Rsvp(attendees, s))
  {
    var r := Rsvp(attendees, s);
    if !HasYou(attendees) {
      forall i, j | 0 <= i < |r| && 0 <= j < |r| && r[i].name == You && r[j].name == You ensures i == j {
        assert i == |attendees| && j == |attendees|;
      }
    }
  }

  // ---------------------------------------------------------------------------
  // Counts and the attendee list

  /** The filter condition "has status `s`". */
  function HasStatus(s: Attendance): Attendee -> bool {
    (a: Attendee) => a.status == Some(s)
  }

  /** `getStatusCounts()[s]`: how many attendees gave the answer `s`. */
  function StatusCount(attendees: seq<Attendee>, s: Attendance): (n: nat)
    ensures n <= |attendees|
    ensures n == 0 <==> forall i :: 0 <= i < |attendees| ==> attendees[i].status != Some(s)
    ensures n == |set i: nat | i < |attendees| && attendees[i].status == Some(s)|
  {
    FilterLength(HasStatus(s), attendees);
    assert IndexSet(HasStatus(s), attendees) == set i: nat | i < |attendees| && attendees[i].status == Some(s);
    var f := Filter(HasStatus(s), attendees);
    assert f != [] ==> f[0] in f;
    assert forall i :: 0 <= i < |attendees| && attendees[i].status == Some(s) ==> attendees[i] in f;
    |f|
  }

  /** The three counts together never exceed the number of attendees, since
      each attendee gives at most one answer. */
  lemma {:induction false} CountsBounded(attendees: seq<Attendee>)
    ensures StatusCount(attendees, Going) + StatusCount(attendees, Maybe) + StatusCount(attendees, NotGoing)
      <= |attendees|
  {
    if attendees != [] {
      CountsBounded(attendees[1..]);
    }
  }

  /** The filter condition of the attendee list: going or maybe. */
  function Coming(): Attendee -> bool {
    (a: Attendee) => a.status == Some(Going) || a.status == Some(Maybe)
  }

  /** The attendees the card lists: exactly those going or maybe, in order. */
  function ShownAttendees(attendees: seq<Attendee>): (r: seq<Attendee>)
    ensures forall a :: a in r <==> a in attendees && (a.status == Some(Going) || a.status == Some(Maybe))
    ensures |r| == StatusCount(attendees, Going) + StatusCount(attendees, Maybe)
    ensures Selects(r, attendees, Coming())
  {
    ShownCount(attendees);
    FilterSelects(Coming(), attendees);
    Filter(Coming(), attendees)
  }

  lemma {:induction false} ShownCount(attendees: seq<Attendee>)
    ensures |Filter(Coming(), attendees)| == StatusCount(attendees, Going) + StatusCount(attendees, Maybe)
  {
    if attendees != [] {
      ShownCount(attendees[1..]);
    }
  }

  // ---------------------------------------------------------------------------
  // The widget

  /** The widget's state fields. */
  class Store {
    var status: Option<Attendance>
    var attendees: seq<Attendee>

    ghost predicate Valid()
      reads this
    {
      AtMostOneYou(attendees)
    }

    constructor ()
      ensures Valid()
      ensures status == None && attendees == SeedAttendees
    {
      status := None;
      attendees := SeedAttendees;
      SeedHasNoYou();
    }

    method HandleRsvp(s: Option<Attendance>)
      requires Valid()
      modifies this`status, this`attendees
      ensures Valid()
      ensures status == s
      ensures attendees == Rsvp(old(attendees), s)
    {
      status := s;
      RsvpKeepsOneYou(attendees, s);
      attendees := Rsvp(attendees, s);
    }
  }
}
