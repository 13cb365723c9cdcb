/** The poll creator: an option list of two to eight entries, one vote per
    user, the create-time validation and the pie chart's segments. Option ids
    are the decimal numbers "1", "2", ...; the model keeps the number. */
module PollCreator {
  import opened Seqs
  import opened Text

  datatype PollOption = PollOption(id: nat, text: string, votes: int)

  const MinOptions: nat := 2
  const MaxOptions: nat := 8

  /** The eight chart colours, used round-robin. */
  const Colors: seq<string> :=
    ["#4285F4", "#EA4335", "#FBBC05", "#34A853", "#FF6D01", "#46BDC6", "#7B61FF", "#1DA462"]

  /** The two empty options shown at mount. */
  const SeedOptions: seq<PollOption> := [PollOption(1, "", 0), PollOption(2, "", 0)]

  function IdOf(o: PollOption): nat {
    o.id
  }

  /** No two options share an id. */
  ghost predicate DistinctIds(os: seq<PollOption>) {
    DistinctKeys(os, IdOf)
  }

  /** The filter condition of a removal: the option's id is another one. */
  function Other(id: nat): PollOption -> bool {
    (o: PollOption) => o.id != id
  }

  // ---------------------------------------------------------------------------
  // Adding and removing options

  /** `handleAddOption` as written: below eight options, a new empty option
      whose id is the list length plus one. */
  function AddOptionAsWritten(os: seq<PollOption>): (r: seq<PollOption>)
    ensures |os| < MaxOptions ==> r == os + [PollOption(|os| + 1, "", 0)]
    ensures |os| >= MaxOptions ==> r == os
  {
    if |os| < MaxOptions then os + [PollOption(|os| + 1, "", 0)] else os
  }

  /** Even as written, adding never takes the list past eight options. */
  lemma AddOptionAsWrittenBounded(os: seq<PollOption>)
    requires |os| <= MaxOptions
    ensures |AddOptionAsWritten(os)| <= MaxOptions
    ensures |os| < MaxOptions ==> |AddOptionAsWritten(os)| == |os| + 1
  {
  }

  /** `handleRemoveOption`: above two options, every option with that id is
      dropped and the others keep their order. */
  function RemoveOption(os: seq<PollOption>, id: nat): (r: seq<PollOption>)
    ensures |os| <= MinOptions ==> r == os
    ensures |os| > MinOptions ==> forall o :: o in r <==> o in os && o.id != id
    ensures |os| > MinOptions ==> Selects(r, os, Other(id))
    ensures |r| <= |os|
  {
    FilterSelects(Other(id), os);
    if |os| > MinOptions then Filter(Other(id), os) else os
  }

  /** With the length-based ids, add, remove "2", add, remove "3" leaves a
      single option: the second add reuses the id 3, and the filter then drops
      both options carrying it. */
  lemma RemoveAfterReusedIdLeavesOne()
    ensures
      var s1 := AddOptionAsWritten(SeedOptions);
      var s2 := RemoveOption(s1, 2);
      var s3 := AddOptionAsWritten(s2);
      && s3 == [PollOption(1, "", 0), PollOption(3, "", 0), PollOption(3, "", 0)]
      && RemoveOption(s3, 3) == [PollOption(1, "", 0)]
  {
    var o1, o3 := PollOption(1, "", 0), PollOption(3, "", 0);
    var s1 := AddOptionAsWritten(SeedOptions);
    assert s1 == [o1, PollOption(2, "", 0), o3];
    assert Filter(Other(2), [o3]) == [o3] by { assert [o3][1..] == []; }
    assert Filter(Other(2), s1[1..]) == [o3] by { assert s1[1..][1..] == [o3]; }
    assert Filter(Other(2), s1) == [o1, o3] by { assert s1[1..] == [PollOption(2, "", 0), o3]; }
    var s3 := AddOptionAsWritten([o1, o3]);
    assert s3 == [o1, o3, o3];
    assert Filter(Other(3), [o3]) == [] by { assert [o3][1..] == []; }
    assert Filter(Other(3), [o3, o3]) == [] by { assert [o3, o3][1..] == [o3]; }
    assert Filter(Other(3), s3) == [o1] by { assert s3[1..] == [o3, o3]; }
  }

  /** The largest option id, 0 for no options. */
  function MaxId(os: seq<PollOption>): (m: nat)
    ensures forall i :: 0 <= i < |os| ==> os[i].id <= m
    ensures os == [] || exists i :: 0 <= i < |os| && os[i].id == m
  {
    if os == [] then 0
    else
      var m := MaxId(os[..|os| - 1]);
      assert forall i :: 0 <= i < |os| - 1 ==> os[..|os| - 1][i] == os[i];
      if os[|os| - 1].id > m then os[|os| - 1].id else m
  }

  /** `handleAddOption` with an id one past the largest one in use, so that a
      removal never leaves two options with the same id. */
  function AddOption(os: seq<PollOption>): (r: seq<PollOption>)
    ensures |os| < MaxOptions ==> r == os + [PollOption(MaxId(os) + 1, "", 0)]
    ensures |os| >= MaxOptions ==> r == os
  {
    if |os| < MaxOptions then os + [PollOption(MaxId(os) + 1, "", 0)] else os
  }

  /** The option list keeps between two and eight options with distinct ids. */
  ghost predicate OptionsValid(os: seq<PollOption>) {
    MinOptions <= |os| <= MaxOptions && DistinctIds(os)
  }

  lemma AddOptionKeeps(os: seq<PollOption>)
    requires OptionsValid(os)
    ensures OptionsValid(AddOption(os))
  {
  }

  /** With distinct ids a removal drops at most one option. */
  lemma {:induction false} FilterDistinctDropsAtMostOne(os: seq<PollOption>, id: nat)
    requires DistinctIds(os)
    ensures |Filter(Other(id), os)| >= |os| - 1
  {
    if os != [] {
      var rest := os[1..];
      assert DistinctIds(rest) by {
        forall i, j | 0 <= i < j < |rest| ensures IdOf(rest[i]) != IdOf(rest[j]) {
          assert rest[i] == os[i + 1] && rest[j] == os[j + 1];
        }
      }
      if os[0].id == id {
        forall i | 0 <= i < |rest| ensures Other(id)(rest[i]) {
          assert rest[i] == os[i + 1];
          assert IdOf(os[0]) != IdOf(os[i + 1]);
        }
        FilterAll(Other(id), rest);
      } else {
        FilterDistinctDropsAtMostOne(rest, id);
      }
    }
  }

  lemma RemoveOptionKeeps(os: seq<PollOption>, id: nat)
    requires OptionsValid(os)
    ensures OptionsValid(RemoveOption(os, id))
  {
    if |os| > MinOptions {
      FilterDistinctDropsAtMostOne(os, id);
      FilterKeepsDistinct(Other(id), os, IdOf);
    }
  }

  // ---------------------------------------------------------------------------
  // Editing, voting and creating

  /** `handleOptionChange`: the matching option takes the new text; ids,
      votes and every other option stay as they were. */
  function ChangeOption(os: seq<PollOption>, id: nat, text: string): (r: seq<PollOption>)
    ensures |r| == |os|
    ensures forall i :: 0 <= i < |os| ==> r[i].id == os[i].id && r[i].votes == os[i].votes
    ensures forall i :: 0 <= i < |os| ==> r[i].text == if os[i].id == id then text else os[i].text
  {
    seq(|os|, i requires 0 <= i < |os| => if os[i].id == id then os[i].(text := text) else os[i])
  }

  /** The sum of the options' votes. */
  function VotesOf(o: PollOption): int {
    o.votes
  }

  function TotalVotes(os: seq<PollOption>): int {
    SumBy(os, VotesOf)
  }

  /** The running total grows by each option's votes in turn. */
  lemma TotalVotesSnoc(os: seq<PollOption>, i: nat)
    requires i < |os|
    ensures TotalVotes(os[..i + 1]) == TotalVotes(os[..i]) + os[i].votes
  {
    assert os[..i + 1] == os[..i] + [os[i]];
    SumByAppend(os[..i], [os[i]], VotesOf);
  }

  /** The options after a first vote for `id`: that option's votes go up by one. */
  function AddVote(os: seq<PollOption>, id: nat): (r: seq<PollOption>)
    ensures |r| == |os|
    ensures forall i :: 0 <= i < |os| ==> r[i].id == os[i].id && r[i].text == os[i].text
    ensures forall i :: 0 <= i < |os| ==> r[i].votes == if os[i].id == id then os[i].votes + 1 else os[i].votes
  {
    seq(|os|, i requires 0 <= i < |os| => if os[i].id == id then os[i].(votes := os[i].votes + 1) else os[i])
  }

  /** When exactly one element's votes go up by one, the total does too. */
  lemma {:induction false} TotalOneMore(a: seq<PollOption>, b: seq<PollOption>, k: nat)
    requires |a| == |b| && k < |a|
    requires forall i :: 0 <= i < |a| && i != k ==> b[i].votes == a[i].votes
    requires b[k].votes == a[k].votes + 1
    ensures TotalVotes(b) == TotalVotes(a) + 1
  {
    if k == 0 {
      assert forall i :: 0 <= i < |a[1..]| ==> a[1..][i].votes == b[1..][i].votes;
      TotalSame(a[1..], b[1..]);
    } else {
      TotalOneMore(a[1..], b[1..], k - 1);
    }
  }

  lemma {:induction false} TotalSame(a: seq<PollOption>, b: seq<PollOption>)
    requires |a| == |b|
    requires forall i :: 0 <= i < |a| ==> b[i].votes == a[i].votes
    ensures TotalVotes(b) == TotalVotes(a)
  {
    if a != [] {
      TotalSame(a[1..], b[1..]);
    }
  }

  /** With distinct ids, a vote for an existing option raises the total by one. */
  lemma AddVoteTotal(os: seq<PollOption>, id: nat, k: nat)
    requires DistinctIds(os) && k < |os| && os[k].id == id
    ensures TotalVotes(AddVote(os, id)) == TotalVotes(os) + 1
  {
    TotalOneMore(os, AddVote(os, id), k);
  }

  /** `handleCreatePoll`'s guard: the question and every option have text
      other than whitespace. */
  predicate Fillable(question: string, os: seq<PollOption>) {
    Trim(question) != [] && forall i :: 0 <= i < |os| ==> Trim(os[i].text) != []
  }

  /** Every option still has no votes, so creating seeds them. */
  predicate NoVotes(os: seq<PollOption>) {
    forall i :: 0 <= i < |os| ==> os[i].votes == 0
  }

  /** The options with the drawn vote counts in place of the zeros. */
  function SeedVotes(os: seq<PollOption>, draws: seq<nat>): (r: seq<PollOption>)
    requires |draws| == |os|
    ensures |r| == |os|
    ensures forall i :: 0 <= i < |os| ==> r[i] == os[i].(votes := draws[i])
  {
    seq(|os|, i requires 0 <= i < |os| => os[i].(votes := draws[i]))
  }

  /** Seeding votes keeps the options valid: ids and count are untouched. */
  lemma SeedVotesKeeps(os: seq<PollOption>, draws: seq<nat>)
    requires OptionsValid(os) && |draws| == |os|
    ensures OptionsValid(SeedVotes(os, draws))
  {
    var r := SeedVotes(os, draws);
    assert forall i :: 0 <= i < |os| ==> IdOf(r[i]) == IdOf(os[i]);
  }

  // ---------------------------------------------------------------------------
  // The pie chart

  /** One slice of the pie. The angles are kept as vote counts: the slice
      spans from `start` to `end` votes of `total`, so the source's angle is
      the count times 360 over the total. */
  datatype Segment = Segment(option: PollOption, start: int, end: int, color: string)

  /** `calculatePieSegments`: nothing when no vote is cast; otherwise one
      slice per option in order, each starting where the previous one ends,
      from 0 to the total, coloured round-robin. */
  method PieSegments(os: seq<PollOption>) returns (segs: seq<Segment>)
    ensures TotalVotes(os) == 0 ==> segs == []
    ensures TotalVotes(os) != 0 ==>
      && |segs| == |os|
      && (forall i :: 0 <= i < |os| ==> segs[i].option == os[i] && segs[i].color == Colors[i % |Colors|])
      && (forall i :: 0 <= i < |os| ==> segs[i].end == segs[i].start + os[i].votes)
      && (forall i :: 0 <= i < |os| - 1 ==> segs[i].end == segs[i + 1].start)
      && segs[0].start == 0
      && segs[|os| - 1].end == TotalVotes(os)
  {
    var total := TotalVotes(os);
    if total == 0 {
      return [];
    }
    segs := [];
    var current := 0;
    var i := 0;
    while i < |os|
      invariant 0 <= i <= |os|
      invariant current == TotalVotes(os[..i])
      invariant Chained(os, segs, i, current)
    {
      TotalVotesSnoc(os, i);
      ChainedSnoc(os, segs, i, current);
      segs := segs + [Segment(os[i], current, current + os[i].votes, Colors[i % |Colors|])];
      current := current + os[i].votes;
      i := i + 1;
    }
    assert os[..|os|] == os;
  }

  /** `segs` are the slices of the first `n` options, each as wide as its
      option's votes, contiguous from 0 up to `current`. */
  ghost predicate Chained(os: seq<PollOption>, segs: seq<Segment>, n: nat, current: int) {
    && n <= |os| && |segs| == n
    && (forall j :: 0 <= j < n ==>
          segs[j].option == os[j] && segs[j].color == Colors[j % |Colors|]
          && segs[j].end == segs[j].start + os[j].votes)
    && (forall j :: 0 <= j < n - 1 ==> segs[j].end == segs[j + 1].start)
    && (n > 0 ==> segs[0].start == 0 && segs[n - 1].end == current)
    && (n == 0 ==> current == 0)
  }

  /** The next slice starts where the last one ends. */
  lemma ChainedSnoc(os: seq<PollOption>, segs: seq<Segment>, n: nat, current: int)
    requires Chained(os, segs, n, current) && n < |os|
    ensures Chained(os, segs + [Segment(os[n], current, current + os[n].votes, Colors[n % |Colors|])],
                    n + 1, current + os[n].votes)
  {
    var t := segs + [Segment(os[n], current, current + os[n].votes, Colors[n % |Colors|])];
    assert forall j :: 0 <= j < n ==> t[j] == segs[j];
  }

  // ---------------------------------------------------------------------------
  // The widget

  /** The widget's state fields. */
  class Store {
    var question: string
    var options: seq<PollOption>
    var duration: string
    var isPreviewMode: bool
    var userVoted: Option<nat>

    /** What the handlers as written keep: at most eight options. Ids can
        repeat and the list can shrink below two (see
        `RemoveAfterReusedIdLeavesOne`). */
    ghost predicate Valid()
      reads this
    {
      |options| <= MaxOptions
    }

    constructor ()
      ensures Valid()
      ensures question == "" && options == SeedOptions && duration == "1d"
      ensures !isPreviewMode && userVoted == None
    {
      question := "";
      options := SeedOptions;
      duration := "1d";
      isPreviewMode := false;
      userVoted := None;
    }

    method SetQuestion(text: string)
      modifies this`question
      ensures question == text
    {
      question := text;
    }

    method SetDuration(d: string)
      modifies this`duration
      ensures duration == d
    {
      duration := d;
    }

    /** The add button, with the length-based id of the code as written. */
    method HandleAddOption()
      requires Valid()
      modifies this`options
      ensures Valid()
      ensures options == AddOptionAsWritten(old(options))
    {
      AddOptionAsWrittenBounded(options);
      options := AddOptionAsWritten(options);
    }

    method HandleRemoveOption(id: nat)
      requires Valid()
      modifies this`options
      ensures Valid()
      ensures options == RemoveOption(old(options), id)
    {
      options := RemoveOption(options, id);
    }

    method HandleOptionChange(id: nat, text: string)
      requires Valid()
      modifies this`options
      ensures Valid()
      ensures options == ChangeOption(old(options), id, text)
    {
      options := ChangeOption(options, id, text);
    }

    /** Only the first vote counts; later clicks change nothing. */
    method HandleVote(id: nat)
      requires Valid()
      modifies this`options, this`userVoted
      ensures Valid()
      ensures old(userVoted).Some? ==> options == old(options) && userVoted == old(userVoted)
      ensures old(userVoted) == None ==> options == AddVote(old(options), id) && userVoted == Some(id)
    {
      if userVoted.Some? {
        return;
      }
      options := AddVote(options, id);
      userVoted := Some(id);
    }

    /** `handleCreatePoll` with the draws `Math.random` would make: refused
        while the question or an option is blank; otherwise the preview opens
        and, when no option has votes yet, each takes its drawn count. */
    method HandleCreatePoll(draws: seq<nat>) returns (created: bool)
      requires Valid()
      requires |draws| == |options| && forall i :: 0 <= i < |draws| ==> 1 <= draws[i] <= 10
      modifies this`isPreviewMode, this`options
      ensures Valid()
      ensures created <==> Fillable(question, old(options))
      ensures !created ==> isPreviewMode == old(isPreviewMode) && options == old(options)
      ensures created ==> isPreviewMode
      ensures created && NoVotes(old(options)) ==> options == SeedVotes(old(options), draws)
      ensures created && !NoVotes(old(options)) ==> options == old(options)
    {
      created := Fillable(question, options);
      if !created {
        return;
      }
      isPreviewMode := true;
      if NoVotes(options) {
        options := SeedVotes(options, draws);
      }
    }

    /** "Edit Poll": back to the form. */
    method EditPoll()
      modifies this`isPreviewMode
      ensures !isPreviewMode
    {
      isPreviewMode := false;
    }
  }

  /** The option list with the corrected add: ids are never reused, so it
      keeps two to eight options with distinct ids through any sequence of
      adds and removals. */
  class CorrectedOptions {
    var options: seq<PollOption>

    ghost predicate Valid()
      reads this
    {
      OptionsValid(options)
    }

    constructor ()
      ensures Valid() && options == SeedOptions
    {
      options := SeedOptions;
    }

    method HandleAddOption()
      requires Valid()
      modifies this`options
      ensures Valid()
      ensures options == AddOption(old(options))
    {
      AddOptionKeeps(options);
      options := AddOption(options);
    }

    method HandleRemoveOption(id: nat)
      requires Valid()
      modifies this`options
      ensures Valid()
      ensures options == RemoveOption(old(options), id)
    {
      RemoveOptionKeeps(options, id);
      options := RemoveOption(options, id);
    }

    /** Seeding the drawn votes keeps the invariant. */
    method SeedDrawnVotes(draws: seq<nat>)
      requires Valid() && |draws| == |options|
      modifies this`options
      ensures Valid()
      ensures options == SeedVotes(old(options), draws)
    {
      SeedVotesKeeps(options, draws);
      options := SeedVotes(options, draws);
    }
  }
}
