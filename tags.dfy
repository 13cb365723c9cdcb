/** The tag bar of the question board and the forum thread:
    `Array.from(new Set(tags)).sort()`, the distinct tags in string order. */
module Tags {
  import opened Text

  /** Each tag comes strictly before the next, so none appears twice. */
  ghost predicate StrictlySorted(s: seq<string>) {
    forall i, j :: 0 <= i < j < |s| ==> Less(s[i], s[j])
  }

  /** A strictly sorted list holds no tag twice. */
  lemma StrictlySortedDistinct(s: seq<string>)
    requires StrictlySorted(s)
    ensures forall i, j :: 0 <= i < j < |s| ==> s[i] != s[j]
  {
    forall i, j | 0 <= i < j < |s| ensures s[i] != s[j] {
      LessIrreflexive(s[i]);
    }
  }

  /** Adds `t` to a strictly sorted list of tags at its place, unless it is
      already there. */
  function InsertTag(t: string, s: seq<string>): (r: seq<string>)
    requires StrictlySorted(s)
    ensures StrictlySorted(r)
    ensures forall x :: x in r <==> x in s || x == t
  {
    if s == [] then [t]
    else if t == s[0] then s
    else if Less(t, s[0]) then
      forall j | 0 < j < |s| ensures Less(t, s[j]) {
        LessTransitive(t, s[0], s[j]);
      }
      [t] + s
    else
      assert StrictlySorted(s[1..]) by {
        forall i, j | 0 <= i < j < |s[1..]| ensures Less(s[1..][i], s[1..][j]) {
          assert s[1..][i] == s[i + 1] && s[1..][j] == s[j + 1];
        }
      }
      var rest := InsertTag(t, s[1..]);
      LessTotal(t, s[0]);
      assert s == [s[0]] + s[1..];
      var r := [s[0]] + rest;
      forall j | 0 < j < |r| ensures Less(s[0], r[j]) {
        assert r[j] in rest;
        if r[j] != t {
          var k :| 0 <= k < |s[1..]| && s[1..][k] == r[j];
          assert s[k + 1] == r[j];
        }
      }
      r
  }

  /** The distinct tags of `tags` in sorted order. */
  function SortedUnion(tags: seq<string>): (r: seq<string>)
    ensures StrictlySorted(r)
    ensures forall x :: x in r <==> x in tags
  {
    if tags == [] then []
    else
      assert tags == [tags[0]] + tags[1..];
      InsertTag(tags[0], SortedUnion(tags[1..]))
  }

  /** The concatenation of the tag lists (a `flatMap` over the records). */
  function Concat(ls: seq<seq<string>>): (r: seq<string>)
    ensures forall i, t :: 0 <= i < |ls| && t in ls[i] ==> t in r
    ensures forall t :: t in r ==> exists i :: 0 <= i < |ls| && t in ls[i]
  {
    if ls == [] then []
    else
      var rest := Concat(ls[1..]);
      forall i, t | 0 < i < |ls| && t in ls[i] ensures t in rest {
        assert ls[1..][i - 1] == ls[i];
      }
      forall t | t in rest ensures exists i :: 0 <= i < |ls| && t in ls[i] {
        var i :| 0 <= i < |ls[1..]| && t in ls[1..][i];
        assert ls[i + 1] == ls[1..][i];
      }
      ls[0] + rest
  }

  /** The sorted union holds every tag exactly once and nothing else. */
  lemma SortedUnionIsSet(tags: seq<string>)
    ensures forall i, j :: 0 <= i < j < |SortedUnion(tags)| ==> SortedUnion(tags)[i] != SortedUnion(tags)[j]
    ensures (set x | x in SortedUnion(tags)) == (set x | x in tags)
  {
    StrictlySortedDistinct(SortedUnion(tags));
  }

  /** `[...new Set(xs.flatMap(tagsOf))].sort()`: every tag of the items once,
      in string order. */
  function AllTagsOf<T>(xs: seq<T>, tagsOf: T -> seq<string>): (r: seq<string>)
    ensures StrictlySorted(r)
    ensures forall t :: t in r <==> exists i :: 0 <= i < |xs| && t in tagsOf(xs[i])
  {
    var ls := seq(|xs|, i requires 0 <= i < |xs| => tagsOf(xs[i]));
    var r := SortedUnion(Concat(ls));
    forall t | t in r ensures exists i :: 0 <= i < |xs| && t in tagsOf(xs[i]) {
      var i :| 0 <= i < |ls| && t in ls[i];
      assert ls[i] == tagsOf(xs[i]);
    }
    forall i, t | 0 <= i < |xs| && t in tagsOf(xs[i]) ensures t in r {
      assert ls[i] == tagsOf(xs[i]);
    }
    r
  }
}
