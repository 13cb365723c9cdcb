/** The single-choice reaction toggle that the forum thread and the social
    feed apply to a post: six reaction kinds with a count each, and at most one
    kind held by the local user. */
module Reactions {
  import opened Seqs

  datatype Kind = Like | Love | Laugh | Wow | Sad | Angry

  /** The kinds in the order of the record's keys, which is the order in
      which `Object.entries` visits them. */
  const AllKinds: seq<Kind> := [Like, Love, Laugh, Wow, Sad, Angry]

  lemma AllKindsComplete(k: Kind)
    ensures k in AllKinds
  {
  }

  /** A `Record<Reaction, number>`. */
  datatype Counts = Counts(like: int, love: int, laugh: int, wow: int, sad: int, angry: int) {

    function Get(k: Kind): int {
      match k
      case Like => like
      case Love => love
      case Laugh => laugh
      case Wow => wow
      case Sad => sad
      case Angry => angry
    }

    /** The record with the count of `k` replaced by `v`. */
    function Set(k: Kind, v: int): (r: Counts)
      ensures r.Get(k) == v
      ensures forall j :: j != k ==> r.Get(j) == Get(j)
      ensures r.Total() == Total() - Get(k) + v
    {
      match k
      case Like => this.(like := v)
      case Love => this.(love := v)
      case Laugh => this.(laugh := v)
      case Wow => this.(wow := v)
      case Sad => this.(sad := v)
      case Angry => this.(angry := v)
    }

    /** The sum of the six counts. */
    function Total(): int {
      like + love + laugh + wow + sad + angry
    }
  }

  /** One post's reaction state: its counts and the kind the user holds. */
  datatype Reacted = Reacted(counts: Counts, held: Option<Kind>)

  /** 1 when the user holds `k`, 0 otherwise: the user's own share of `k`'s count. */
  function Share(held: Option<Kind>, k: Kind): int {
    if held == Some(k) then 1 else 0
  }

  /** `handleReaction` on one post: taking back the held kind, moving from the
      held kind to another, or reacting for the first time. */
  function React(s: Reacted, k: Kind): (r: Reacted)
    // the same kind again: its count goes down by one and nothing is held
    ensures s.held == Some(k) ==> r.counts.Get(k) == s.counts.Get(k) - 1 && r.held == None
    // another kind while one is held: one count moves from the old kind to the new
    ensures s.held.Some? && s.held != Some(k) ==>
      && r.counts.Get(s.held.value) == s.counts.Get(s.held.value) - 1
      && r.counts.Get(k) == s.counts.Get(k) + 1
      && r.counts.Total() == s.counts.Total()
      && r.held == Some(k)
    // no kind held: the new kind goes up by one
    ensures s.held == None ==> r.counts.Get(k) == s.counts.Get(k) + 1 && r.held == Some(k)
    // no other kind is touched and the total moves by at most one
    ensures forall j :: j != k && Some(j) != s.held ==> r.counts.Get(j) == s.counts.Get(j)
    ensures -1 <= r.counts.Total() - s.counts.Total() <= 1
  {
    var c := s.counts;
    if s.held == Some(k) then
      Reacted(c.Set(k, c.Get(k) - 1), None)
    else if s.held.Some? then
      var moved := c.Set(s.held.value, c.Get(s.held.value) - 1);
      Reacted(moved.Set(k, moved.Get(k) + 1), Some(k))
    else
      Reacted(c.Set(k, c.Get(k) + 1), Some(k))
  }

  /** Every count is the seed's count plus the user's own share. */
  ghost predicate Tracks(s: Reacted, seed: Counts) {
    forall j :: s.counts.Get(j) == seed.Get(j) + Share(s.held, j)
  }

  /** A held kind has a count of at least one and no count is negative. */
  ghost predicate Sound(s: Reacted) {
    && (forall j :: s.counts.Get(j) >= 0)
    && (s.held.Some? ==> s.counts.Get(s.held.value) >= 1)
  }

  /** A reaction keeps every count equal to its seed plus the user's share. */
  lemma ReactTracks(s: Reacted, seed: Counts, k: Kind)
    requires Tracks(s, seed)
    ensures Tracks(React(s, k), seed)
  {
  }

  /** Any sequence of reactions by the user. */
  function ReactAll(s: Reacted, ks: seq<Kind>): Reacted
    decreases |ks|
  {
    if ks == [] then s else ReactAll(React(s, ks[0]), ks[1..])
  }

  /** From a seed with nothing held, after any sequence of reactions each
      count is its seed plus one exactly when the user holds that kind. */
  lemma {:induction false} ReactAllTracks(seed: Counts, ks: seq<Kind>)
    ensures Tracks(ReactAll(Reacted(seed, None), ks), seed)
  {
    ReactAllTracksFrom(Reacted(seed, None), seed, ks);
  }

  lemma {:induction false} ReactAllTracksFrom(s: Reacted, seed: Counts, ks: seq<Kind>)
    requires Tracks(s, seed)
    ensures Tracks(ReactAll(s, ks), seed)
    decreases |ks|
  {
    if ks != [] {
      ReactTracks(s, seed, ks[0]);
      ReactAllTracksFrom(React(s, ks[0]), seed, ks[1..]);
    }
  }

  /** A held kind always has a positive count, so counts never go negative. */
  lemma ReactSound(s: Reacted, k: Kind)
    requires Sound(s)
    ensures Sound(React(s, k))
  {
  }

  /** The total is the seed's total plus one while the user holds a kind. */
  lemma TracksTotal(s: Reacted, seed: Counts)
    requires Tracks(s, seed)
    ensures s.counts.Total() == seed.Total() + (if s.held.Some? then 1 else 0)
  {
    var a, b := s.counts, seed;
    assert a.Get(Like) == b.Get(Like) + Share(s.held, Like);
    assert a.Get(Love) == b.Get(Love) + Share(s.held, Love);
    assert a.Get(Laugh) == b.Get(Laugh) + Share(s.held, Laugh);
    assert a.Get(Wow) == b.Get(Wow) + Share(s.held, Wow);
    assert a.Get(Sad) == b.Get(Sad) + Share(s.held, Sad);
    assert a.Get(Angry) == b.Get(Angry) + Share(s.held, Angry);
    match s.held
    case None =>
    case Some(h) =>
      match h
      case Like => case Love => case Laugh => case Wow => case Sad => case Angry =>
  }
}
