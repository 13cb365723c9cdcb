/** The question-and-answer board: up/down votes with toggle-off, one accepted
    answer per question, appended answers with fresh numbers, and the tag,
    filter and sort views. A question id "n" is modelled by the number n and
    an answer id "an" by the number n after its leading "a". */
module QABoard {
  import opened Seqs
  import opened Text
  import Tags

  datatype Vote = Up | Down

  datatype Answer = Answer(
    id: nat,
    author: string,
    content: string,
    timestamp: string,
    upvotes: int,
    downvotes: int,
    userVote: Option<Vote>,
    isAccepted: bool)

  datatype Question = Question(
    id: nat,
    title: string,
    author: string,
    content: string,
    timestamp: string,
    tags: seq<string>,
    upvotes: int,
    downvotes: int,
    userVote: Option<Vote>,
    answers: seq<Answer>,
    views: nat)

  datatype SortBy = Newest | Votes | Activity

  /** The long texts of the seed board: question titles and bodies and
      answer bodies. */
  datatype SeedTexts = SeedTexts(
    q1Title: string, q1Body: string, a1Body: string, a2Body: string,
    q2Title: string, q2Body: string, a3Body: string,
    q3Title: string, q3Body: string, a4Body: string)

  /** The seed board's questions and answers around the texts `t`. */
  function SeedBoard(t: SeedTexts): seq<Question> {
    [ Question(1, t.q1Title, "Alex Johnson", t.q1Body,
        "2 days ago", ["react", "websockets", "real-time"], 24, 2, None,
        [ Answer(1, "Jamie Smith", t.a1Body, "1 day ago", 15, 0, None, true),
          Answer(2, "Taylor Brown", t.a2Body, "1 day ago", 8, 1, None, false) ],
        156),
      Question(2, t.q2Title, "Jordan Lee", t.q2Body,
        "3 days ago", ["react", "state-management", "redux"], 32, 1, None,
        [ Answer(3, "Casey Wilson", t.a3Body, "2 days ago", 18, 2, None, false) ],
        203),
      Question(3, t.q3Title, "Riley Martinez", t.q3Body,
        "1 week ago", ["next.js", "performance", "images"], 41, 0, None,
        [ Answer(4, "Alex Johnson", t.a4Body, "6 days ago", 27, 0, None, true) ],
        312) ]
  }

  /** The seed board shown at mount. */
  const SeedQuestions: seq<Question> :=
    SeedBoard(SeedTexts(Q1Title, Q1Body, A1Body, A2Body, Q2Title, Q2Body, A3Body, Q3Title, Q3Body, A4Body))

  // The titles and texts of the seed questions and answers, in short
  // pieces, which keeps them cheap for the verifier.
  const Q1Title: string :=
    "How do I implement real-time updates " +
    "with React and WebSockets?"
  const Q1Body: string :=
    "I'm building a chat application and " +
    "need to implement real-time updates. " +
    "What's the best approach using React " +
    "and WebSockets? I've tried using the " +
    "useEffect hook but I'm running into " +
    "issues with connection management."
  const A1Body: string :=
    "I recommend using the `useWebSocket` " +
    "hook from the react-use-websocket " +
    "library. It handles connection " +
    "management and reconnection logic for " +
    "you. Here's a basic " +
    "example:\n\n```jsx\nimport useWebSocket " +
    "from 'react-use-websocket';\n\nfunction " +
    "Chat() {\n  const { lastMessage, " +
    "sendMessage } = " +
    "useWebSocket('wss://your-websocket-server');\n  " +
    "// Rest of your component\n}```"
  const A2Body: string :=
    "You could also use Socket.IO which " +
    "provides additional features like " +
    "automatic reconnection and room " +
    "support. It works well with React and " +
    "has good documentation."
  const Q2Title: string :=
    "Best practices for state management in " +
    "large React applications?"
  const Q2Body: string :=
    "I'm working on a large-scale React " +
    "application and I'm trying to decide on " +
    "the best approach for state management. " +
    "Should I use Redux, Context API, or one " +
    "of the newer libraries like Zustand or " +
    "Jotai? What are the pros and cons of " +
    "each approach?"
  const A3Body: string :=
    "It really depends on your specific " +
    "needs. Redux is great for complex state " +
    "with many interactions, but has more " +
    "boilerplate. Context API is built-in " +
    "but can cause performance issues with " +
    "frequent updates. Zustand is a good " +
    "middle ground with a simple API but " +
    "powerful capabilities."
  const Q3Title: string :=
    "How to optimize Next.js image loading " +
    "for better performance?"
  const Q3Body: string :=
    "I'm noticing some performance issues " +
    "with image loading in my Next.js " +
    "application. What are some best " +
    "practices for optimizing image loading " +
    "and improving Core Web Vitals scores?"
  const A4Body: string :=
    "Next.js has a built-in Image component " +
    "that automatically optimizes images. " +
    "Make sure you're using the `next/image` " +
    "component instead of the standard HTML " +
    "`<img>` tag. Also, set appropriate " +
    "'sizes' props for responsive images and " +
    "consider using the 'priority' prop for " +
    "above-the-fold images."

  // ---------------------------------------------------------------------------
  // Vote tally

  /** The counters and stored vote of one question or answer. */
  datatype Tally = Tally(up: int, down: int, userVote: Option<Vote>)

  /** One vote, as `handleVote` computes it with its local counters: undo the
      stored vote, apply the new direction unless it repeats the stored one,
      and store the direction or, on a repeat, nothing. */
  function CastVote(t: Tally, v: Vote): (r: Tally)
    // no stored vote: that direction's counter goes up by one and is stored
    ensures t.userVote == None ==>
      r == (if v.Up? then Tally(t.up + 1, t.down, Some(Up)) else Tally(t.up, t.down + 1, Some(Down)))
    // the stored direction again: its counter goes down by one and the vote is cleared
    ensures t.userVote == Some(v) ==>
      r == (if v.Up? then Tally(t.up - 1, t.down, None) else Tally(t.up, t.down - 1, None))
    // the other direction: one count moves from the old counter to the new one
    ensures t.userVote.Some? && t.userVote != Some(v) ==>
      r == (if v.Up? then Tally(t.up + 1, t.down - 1, Some(Up)) else Tally(t.up - 1, t.down + 1, Some(Down)))
  {
    match t.userVote
    case None => if v.Up? then Tally(t.up + 1, t.down, Some(Up)) else Tally(t.up, t.down + 1, Some(Down))
    case Some(w) =>
      // undo the stored vote before applying the new one
      var up := if w.Up? then t.up - 1 else t.up;
      var down := if w.Down? then t.down - 1 else t.down;
      if w == v then Tally(up, down, None)
      else if v.Up? then Tally(up + 1, down, Some(Up))
      else Tally(up, down + 1, Some(Down))
  }

  /** 1 when the stored vote is `v`: the local user's share of that counter. */
  function Share(userVote: Option<Vote>, v: Vote): int {
    if userVote == Some(v) then 1 else 0
  }

  /** The counters are the seed's plus the stored vote's share. */
  ghost predicate Accounts(t: Tally, seedUp: int, seedDown: int) {
    t.up == seedUp + Share(t.userVote, Up) && t.down == seedDown + Share(t.userVote, Down)
  }

  /** Any sequence of votes on one question or answer. */
  function CastVotes(t: Tally, vs: seq<Vote>): Tally
    decreases |vs|
  {
    if vs == [] then t else CastVotes(CastVote(t, vs[0]), vs[1..])
  }

  /** From a seed with no stored vote, after any sequence of votes each
      counter is its seed plus one exactly when the stored vote is that
      direction. */
  lemma {:induction false} CastVotesAccounts(seedUp: int, seedDown: int, vs: seq<Vote>)
    ensures Accounts(CastVotes(Tally(seedUp, seedDown, None), vs), seedUp, seedDown)
  {
    CastVotesAccountsFrom(Tally(seedUp, seedDown, None), seedUp, seedDown, vs);
  }

  lemma {:induction false} CastVotesAccountsFrom(t: Tally, seedUp: int, seedDown: int, vs: seq<Vote>)
    requires Accounts(t, seedUp, seedDown)
    ensures Accounts(CastVotes(t, vs), seedUp, seedDown)
    decreases |vs|
  {
    if vs != [] {
      CastVotesAccountsFrom(CastVote(t, vs[0]), seedUp, seedDown, vs[1..]);
    }
  }

  function TallyOfQuestion(q: Question): Tally {
    Tally(q.upvotes, q.downvotes, q.userVote)
  }

  function TallyOfAnswer(a: Answer): Tally {
    Tally(a.upvotes, a.downvotes, a.userVote)
  }

  function WithQuestionTally(q: Question, t: Tally): Question {
    q.(upvotes := t.up, downvotes := t.down, userVote := t.userVote)
  }

  function WithAnswerTally(a: Answer, t: Tally): Answer {
    a.(upvotes := t.up, downvotes := t.down, userVote := t.userVote)
  }

  /** The answers after a vote on `answerId`: only the matching answer's
      counters and stored vote change. */
  function VoteOnAnswers(answers: seq<Answer>, answerId: nat, v: Vote): (r: seq<Answer>)
    ensures |r| == |answers|
    ensures forall i :: 0 <= i < |answers| ==>
      r[i] == if answers[i].id == answerId
              then WithAnswerTally(answers[i], CastVote(TallyOfAnswer(answers[i]), v))
              else answers[i]
  {
    seq(|answers|, i requires 0 <= i < |answers| =>
      if answers[i].id == answerId
      then WithAnswerTally(answers[i], CastVote(TallyOfAnswer(answers[i]), v))
      else answers[i])
  }

  /** `handleVote(questionId, answerId, v)`: a vote on the question itself
      (`answerId == None`) or on one of its answers. */
  function VoteOn(questions: seq<Question>, questionId: nat, answerId: Option<nat>, v: Vote): (r: seq<Question>)
    ensures |r| == |questions|
    // every other question is unchanged
    ensures forall i :: 0 <= i < |questions| && questions[i].id != questionId ==> r[i] == questions[i]
    // a vote on the question touches only its counters and stored vote
    ensures answerId == None ==> forall i :: 0 <= i < |questions| && questions[i].id == questionId ==>
      r[i] == WithQuestionTally(questions[i], CastVote(TallyOfQuestion(questions[i]), v))
    // a vote on an answer touches only that answer of the question
    ensures answerId.Some? ==> forall i :: 0 <= i < |questions| && questions[i].id == questionId ==>
      r[i] == questions[i].(answers := VoteOnAnswers(questions[i].answers, answerId.value, v))
  {
    seq(|questions|, i requires 0 <= i < |questions| =>
      var q := questions[i];
      if q.id != questionId then q
      else if answerId == None then WithQuestionTally(q, CastVote(TallyOfQuestion(q), v))
      else q.(answers := VoteOnAnswers(q.answers, answerId.value, v)))
  }

  // ---------------------------------------------------------------------------
  // Accepting an answer

  /** `handleAcceptAnswer`: under the matching question every answer is
      accepted exactly when its id is `answerId`; answer order, count and every
      other field, and every other question, stay as they were. */
  function Accept(questions: seq<Question>, questionId: nat, answerId: nat): (r: seq<Question>)
    ensures |r| == |questions|
    ensures forall i :: 0 <= i < |questions| && questions[i].id != questionId ==> r[i] == questions[i]
    ensures forall i :: 0 <= i < |questions| && questions[i].id == questionId ==>
      && |r[i].answers| == |questions[i].answers|
      && r[i] == questions[i].(answers := r[i].answers)
      && forall j :: 0 <= j < |r[i].answers| ==>
           && r[i].answers[j] == questions[i].answers[j].(isAccepted := r[i].answers[j].isAccepted)
           && (r[i].answers[j].isAccepted <==> questions[i].answers[j].id == answerId)
  {
    seq(|questions|, i requires 0 <= i < |questions| =>
      var q := questions[i];
      if q.id == questionId then
        q.(answers := seq(|q.answers|, j requires 0 <= j < |q.answers| =>
                            q.answers[j].(isAccepted := q.answers[j].id == answerId)))
      else q)
  }

  /** The answer ids of a question are pairwise distinct. */
  ghost predicate DistinctAnswerIds(q: Question) {
    forall j, k :: 0 <= j < k < |q.answers| ==> q.answers[j].id != q.answers[k].id
  }

  /** With distinct answer ids, at most one answer of the question is accepted
      after `Accept`, and it is the one asked for. */
  lemma AcceptExclusive(questions: seq<Question>, questionId: nat, answerId: nat, i: nat)
    requires i < |questions| && questions[i].id == questionId && DistinctAnswerIds(questions[i])
    ensures forall j, k :: 0 <= j < k < |Accept(questions, questionId, answerId)[i].answers| ==>
      !(Accept(questions, questionId, answerId)[i].answers[j].isAccepted
        && Accept(questions, questionId, answerId)[i].answers[k].isAccepted)
  {
  }

  // ---------------------------------------------------------------------------
  // Submitting an answer

  /** Some question has at least one answer, so `Math.max` has an argument. */
  ghost predicate HasAnswers(questions: seq<Question>) {
    exists i :: 0 <= i < |questions| && questions[i].answers != []
  }

  /** The largest answer number of a question's answers, or `floor` if larger. */
  function MaxIn(answers: seq<Answer>, floor: nat): (m: nat)
    ensures m >= floor
    ensures forall j :: 0 <= j < |answers| ==> answers[j].id <= m
    ensures m == floor || exists j :: 0 <= j < |answers| && answers[j].id == m
  {
    if answers == [] then floor
    else
      var last := answers[|answers| - 1];
      var m := MaxIn(answers[..|answers| - 1], floor);
      if last.id > m then last.id else m
  }

  /** Some answer of some question carries the number `m`. */
  ghost predicate AnswerIdIn(questions: seq<Question>, m: nat) {
    exists i, j :: 0 <= i < |questions| && 0 <= j < |questions[i].answers| && questions[i].answers[j].id == m
  }

  /** The largest answer number across all questions, from 0 upward: it
      bounds every answer number and, when there are answers, is one of them. */
  function MaxAnswerId(questions: seq<Question>): (m: nat)
    ensures forall i, j :: 0 <= i < |questions| && 0 <= j < |questions[i].answers| ==>
      questions[i].answers[j].id <= m
    ensures HasAnswers(questions) ==> AnswerIdIn(questions, m)
    ensures !HasAnswers(questions) ==> m == 0
  {
    if questions == [] then 0
    else
      var m := MaxAnswerId(questions[..|questions| - 1]);
      var r := MaxIn(questions[|questions| - 1].answers, m);
      assert forall i :: 0 <= i < |questions| - 1 ==> questions[..|questions| - 1][i] == questions[i];
      MaxStepAttained(questions, m, r);
      r
  }

  /** The step of `MaxAnswerId` that takes in the last question keeps the
      maximum attained. */
  lemma MaxStepAttained(questions: seq<Question>, m: nat, r: nat)
    requires questions != []
    requires HasAnswers(questions[..|questions| - 1]) ==> AnswerIdIn(questions[..|questions| - 1], m)
    requires !HasAnswers(questions[..|questions| - 1]) ==> m == 0
    requires r == MaxIn(questions[|questions| - 1].answers, m)
    ensures HasAnswers(questions) ==> AnswerIdIn(questions, r)
    ensures !HasAnswers(questions) ==> r == 0
  {
    var n := |questions| - 1;
    var front := questions[..n];
    var last := questions[n].answers;
    if r != m {
      var j :| 0 <= j < |last| && last[j].id == r;
      assert questions[n].answers[j].id == r;
    } else if HasAnswers(front) {
      var i, j :| 0 <= i < |front| && 0 <= j < |front[i].answers| && front[i].answers[j].id == m;
      assert questions[i] == front[i];
    } else if last != [] {
      assert last[0].id == r;
    } else {
      forall i | 0 <= i < |questions| ensures questions[i].answers == [] {
        if i < n {
          assert questions[i] == front[i];
        }
      }
    }
  }

  /** The number of the next answer, one more than every existing one. */
  function NewAnswerId(questions: seq<Question>): (n: nat)
    requires HasAnswers(questions)
    ensures forall i, j :: 0 <= i < |questions| && 0 <= j < |questions[i].answers| ==>
      questions[i].answers[j].id < n
  {
    MaxAnswerId(questions) + 1
  }

  /** The answers after `handleSubmitAnswer` with a non-blank text: one answer
      appended to the target question, with the trimmed text, no votes and not
      accepted; every other question unchanged. */
  function AppendAnswer(questions: seq<Question>, questionId: nat, text: string, newId: nat): (r: seq<Question>)
    ensures |r| == |questions|
    ensures forall i :: 0 <= i < |questions| && questions[i].id != questionId ==> r[i] == questions[i]
    ensures forall i :: 0 <= i < |questions| && questions[i].id == questionId ==>
      r[i] == questions[i].(answers := questions[i].answers
                + [Answer(newId, "You", Trim(text), "Just now", 0, 0, None, false)])
  {
    seq(|questions|, i requires 0 <= i < |questions| =>
      var q := questions[i];
      if q.id == questionId
      then q.(answers := q.answers + [Answer(newId, "You", Trim(text), "Just now", 0, 0, None, false)])
      else q)
  }

  /** A fresh answer number keeps every question's answer ids distinct. */
  lemma AppendAnswerDistinct(questions: seq<Question>, questionId: nat, text: string)
    requires HasAnswers(questions)
    requires forall i :: 0 <= i < |questions| ==> DistinctAnswerIds(questions[i])
    ensures forall i :: 0 <= i < |questions| ==>
      DistinctAnswerIds(AppendAnswer(questions, questionId, text, NewAnswerId(questions))[i])
  {
    var n := NewAnswerId(questions);
    var a := Answer(n, "You", Trim(text), "Just now", 0, 0, None, false);
    var r := AppendAnswer(questions, questionId, text, n);
    forall i | 0 <= i < |questions| ensures DistinctAnswerIds(r[i]) {
      if questions[i].id == questionId {
        SnocDistinct(questions[i].answers, a);
        assert r[i].answers == questions[i].answers + [a];
      } else {
        assert r[i] == questions[i];
      }
    }
  }

  /** An answer numbered above every other keeps the numbers distinct. */
  lemma SnocDistinct(answers: seq<Answer>, a: Answer)
    requires forall j, k :: 0 <= j < k < |answers| ==> answers[j].id != answers[k].id
    requires forall j :: 0 <= j < |answers| ==> answers[j].id < a.id
    ensures forall j, k :: 0 <= j < k < |answers + [a]| ==> (answers + [a])[j].id != (answers + [a])[k].id
  {
  }

  // ---------------------------------------------------------------------------
  // Derived views

  /** `allTags`: every tag of the board once, in string order. */
  function AllTags(questions: seq<Question>): (r: seq<string>)
    ensures Tags.StrictlySorted(r)
    ensures forall t :: t in r <==> exists i :: 0 <= i < |questions| && t in questions[i].tags
  {
    Tags.AllTagsOf(questions, (x: Question) => x.tags)
  }


  /** The filter condition of a tag button. */
  function HasTag(tag: string): Question -> bool {
    (q: Question) => tag in q.tags
  }

  /** `filteredQuestions`: the questions carrying the active tag, or all. */
  function FilteredQuestions(questions: seq<Question>, activeTag: Option<string>): (r: seq<Question>)
    ensures activeTag == None ==> r == questions
    ensures activeTag.Some? ==>
      forall q :: q in r <==> q in questions && activeTag.value in q.tags
    ensures activeTag.Some? ==>
      forall q :: multiset(r)[q] == if activeTag.value in q.tags then multiset(questions)[q] else 0
    ensures activeTag.Some? ==> Selects(r, questions, HasTag(activeTag.value))
  {
    match activeTag
    case None => questions
    case Some(tag) =>
      FilterCounts(HasTag(tag), questions);
      FilterSelects(HasTag(tag), questions);
      Filter(HasTag(tag), questions)
  }

  /** The net score the "votes" order sorts on. */
  function NetScore(q: Question): int {
    q.upvotes - q.downvotes
  }

  /** The number of a question's latest answer, 0 without answers: the key of
      the "activity" order. */
  function LatestAnswer(q: Question): (n: nat)
    ensures forall j :: 0 <= j < |q.answers| ==> q.answers[j].id <= n
    ensures q.answers == [] ==> n == 0
    ensures q.answers != [] ==> exists j :: 0 <= j < |q.answers| && q.answers[j].id == n
  {
    var n := MaxIn(q.answers, 0);
    assert q.answers != [] && n == 0 ==> q.answers[0].id == n;
    n
  }

  /** The sort key of each order: the question number for "newest", the net
      score for "votes", the latest answer number for "activity". */
  function SortKey(sortBy: SortBy): Question -> int {
    match sortBy
    case Newest => (q: Question) => q.id as int
    case Votes => (q: Question) => NetScore(q)
    case Activity => (q: Question) => LatestAnswer(q) as int
  }

  /** `sortedQuestions`: a permutation of the filtered questions in descending
      order of the chosen key. */
  function SortedQuestions(filtered: seq<Question>, sortBy: SortBy): (r: seq<Question>)
    ensures multiset(r) == multiset(filtered)
    ensures sortBy == Votes ==> forall i, j :: 0 <= i < j < |r| ==> NetScore(r[i]) >= NetScore(r[j])
    ensures sortBy == Newest ==> forall i, j :: 0 <= i < j < |r| ==> r[i].id >= r[j].id
    ensures sortBy == Activity ==> forall i, j :: 0 <= i < j < |r| ==> LatestAnswer(r[i]) >= LatestAnswer(r[j])
  {
    SortByKeyDesc(filtered, SortKey(sortBy))
  }

  /** Questions with equal keys keep their filtered order, as the stable
      `Array.prototype.sort` keeps them. */
  lemma SortedQuestionsStable(filtered: seq<Question>, sortBy: SortBy, k: int)
    ensures Filter(KeyIs(SortKey(sortBy), k), SortedQuestions(filtered, sortBy))
         == Filter(KeyIs(SortKey(sortBy), k), filtered)
  {
    SortByKeyDescStable(filtered, SortKey(sortBy), k);
  }

  // ---------------------------------------------------------------------------
  // The board invariant

  /** At most one answer of the question is accepted. */
  ghost predicate OneAccepted(q: Question) {
    forall j, k :: 0 <= j < k < |q.answers| ==> !(q.answers[j].isAccepted && q.answers[k].isAccepted)
  }

  /** What the handlers keep: some answer exists, so `Math.max` has an
      argument; within each question the answer ids differ and at most one
      answer is accepted. */
  ghost predicate BoardValid(questions: seq<Question>) {
    && HasAnswers(questions)
    && forall i :: 0 <= i < |questions| ==> DistinctAnswerIds(questions[i]) && OneAccepted(questions[i])
  }

  /** The seed board satisfies the invariant, whatever its texts. */
  lemma SeedValid(t: SeedTexts)
    ensures BoardValid(SeedBoard(t))
  {
    var qs := SeedBoard(t);
    assert qs[0].answers != [];
    var a0, a1, a2 := qs[0].answers, qs[1].answers, qs[2].answers;
    assert |a0| == 2 && a0[0].id == 1 && a0[1].id == 2 && !a0[1].isAccepted;
    assert |a1| == 1 && |a2| == 1;
    assert DistinctAnswerIds(qs[0]) && OneAccepted(qs[0]);
    assert DistinctAnswerIds(qs[1]) && OneAccepted(qs[1]);
    assert DistinctAnswerIds(qs[2]) && OneAccepted(qs[2]);
  }

  /** A vote changes no answer id and no accepted flag, so it keeps the
      invariant. */
  lemma VoteOnKeepsValid(questions: seq<Question>, questionId: nat, answerId: Option<nat>, v: Vote)
    requires BoardValid(questions)
    ensures BoardValid(VoteOn(questions, questionId, answerId, v))
  {
    var r := VoteOn(questions, questionId, answerId, v);
    var i0 :| 0 <= i0 < |questions| && questions[i0].answers != [];
    assert |r[i0].answers| == |questions[i0].answers|;
    forall i | 0 <= i < |questions| ensures DistinctAnswerIds(r[i]) && OneAccepted(r[i]) {
      assert |r[i].answers| == |questions[i].answers|;
      assert forall j :: 0 <= j < |r[i].answers| ==>
        r[i].answers[j].id == questions[i].answers[j].id
        && r[i].answers[j].isAccepted == questions[i].answers[j].isAccepted;
    }
  }

  /** Accepting an answer keeps the invariant: answer ids stay as they were and
      the target question ends with at most one accepted answer. */
  lemma AcceptKeepsValid(questions: seq<Question>, questionId: nat, answerId: nat)
    requires BoardValid(questions)
    ensures BoardValid(Accept(questions, questionId, answerId))
  {
    var r := Accept(questions, questionId, answerId);
    var i0 :| 0 <= i0 < |questions| && questions[i0].answers != [];
    assert |r[i0].answers| == |questions[i0].answers|;
    forall i | 0 <= i < |questions| ensures DistinctAnswerIds(r[i]) && OneAccepted(r[i]) {
      if questions[i].id == questionId {
        AcceptExclusive(questions, questionId, answerId, i);
        assert forall j :: 0 <= j < |r[i].answers| ==> r[i].answers[j].id == questions[i].answers[j].id;
      }
    }
  }

  /** Appending a fresh, unaccepted answer keeps the invariant. */
  lemma AppendAnswerKeepsValid(questions: seq<Question>, questionId: nat, text: string)
    requires BoardValid(questions)
    ensures BoardValid(AppendAnswer(questions, questionId, text, NewAnswerId(questions)))
  {
    var n := NewAnswerId(questions);
    var r := AppendAnswer(questions, questionId, text, n);
    AppendAnswerDistinct(questions, questionId, text);
    var i0 :| 0 <= i0 < |questions| && questions[i0].answers != [];
    assert r[i0].answers != [] by {
      assert |r[i0].answers| >= |questions[i0].answers|;
    }
    forall i | 0 <= i < |questions| ensures OneAccepted(r[i]) {
      if questions[i].id == questionId {
        var a := Answer(n, "You", Trim(text), "Just now", 0, 0, None, false);
        assert r[i].answers == questions[i].answers + [a];
      }
    }
  }

  // ---------------------------------------------------------------------------
  // The widget

  /** The widget's state fields. */
  class Store {
    var questions: seq<Question>
    var activeQuestion: Option<nat>
    var activeTag: Option<string>
    var sortBy: SortBy
    var newAnswer: string

    ghost predicate Valid()
      reads this
    {
      BoardValid(questions)
    }

    constructor ()
      ensures Valid()
      ensures questions == SeedQuestions && activeQuestion == None && activeTag == None
      ensures sortBy == Newest && newAnswer == ""
    {
      SeedValid(SeedTexts(Q1Title, Q1Body, A1Body, A2Body, Q2Title, Q2Body, A3Body, Q3Title, Q3Body, A4Body));
      questions := SeedQuestions;
      activeQuestion := None;
      activeTag := None;
      sortBy := Newest;
      newAnswer := "";
    }

    method HandleVote(questionId: nat, answerId: Option<nat>, v: Vote)
      requires Valid()
      modifies this`questions
      ensures Valid()
      ensures questions == VoteOn(old(questions), questionId, answerId, v)
    {
      VoteOnKeepsValid(questions, questionId, answerId, v);
      questions := VoteOn(questions, questionId, answerId, v);
    }

    /** The accept button. The view offers it only on an answer not yet
        accepted, of a question whose author is "You"; no seed question is,
        so the widget as shipped never calls it. The handler itself has no
        guard and is modelled as written. */
    method HandleAcceptAnswer(questionId: nat, answerId: nat)
      requires Valid()
      modifies this`questions
      ensures Valid()
      ensures questions == Accept(old(questions), questionId, answerId)
    {
      AcceptKeepsValid(questions, questionId, answerId);
      questions := Accept(questions, questionId, answerId);
    }

    /** The answer box's `onChange`. */
    method SetNewAnswer(text: string)
      modifies this`newAnswer
      ensures newAnswer == text
    {
      newAnswer := text;
    }

    /** A tag button, or "All" with `None`. */
    method SetActiveTag(tag: Option<string>)
      modifies this`activeTag
      ensures activeTag == tag
    {
      activeTag := tag;
    }

    /** The order selector. */
    method SetSortBy(order: SortBy)
      modifies this`sortBy
      ensures sortBy == order
    {
      sortBy := order;
    }

    /** Opening a question, or going back to the list with `None`. */
    method SetActiveQuestion(id: Option<nat>)
      modifies this`activeQuestion
      ensures activeQuestion == id
    {
      activeQuestion := id;
    }

    /** A whitespace-only answer changes nothing; otherwise the trimmed text
        is appended to the question as a fresh answer and the input clears. */
    method HandleSubmitAnswer(questionId: nat)
      requires Valid()
      modifies this`questions, this`newAnswer
      ensures Valid()
      ensures Trim(old(newAnswer)) == [] ==> questions == old(questions) && newAnswer == old(newAnswer)
      ensures Trim(old(newAnswer)) != [] ==>
        && questions == AppendAnswer(old(questions), questionId, old(newAnswer), NewAnswerId(old(questions)))
        && newAnswer == ""
    {
      if Trim(newAnswer) != [] {
        AppendAnswerKeepsValid(questions, questionId, newAnswer);
        var newId := NewAnswerId(questions);
        questions := AppendAnswer(questions, questionId, newAnswer, newId);
        newAnswer := "";
      }
    }
  }
}
