/**
 * Choosing the current version from the repository's tags, as the loop in
 * `getVersion` (main.go) does: tags that do not start with the prefix are
 * passed over, the rest are parsed whole (prefix included) by the semantic
 * version library, unparsable ones are reported and passed over, and the
 * strictly greatest version seen so far is kept. The library's parser is a
 * parameter; the comparison is precedence as Semver defines it.
 */
module TagSelection {
  import opened Wrappers
  import opened GoStrings
  import opened Semver

  /** The library's `semver.NewVersion`, applied to a whole tag name. */
  type Parser = string -> Option<Version>

  /** A tag the loop takes into account: it has the prefix and parses. */
  predicate Candidate(tag: string, prefix: string, parse: Parser) {
    HasPrefix(tag, prefix) && parse(tag).Some?
  }

  /** A tag that has the prefix but does not parse: it is reported and passed over. */
  predicate Unparsable(tag: string, prefix: string, parse: Parser) {
    HasPrefix(tag, prefix) && parse(tag).None?
  }

  /** The loop's update of `latest` by one parsed version: replaced only by a strictly greater one. */
  function Keep(latest: Option<Version>, v: Version): (r: Option<Version>)
    ensures r.Some?
    ensures r == latest || r == Some(v)
  {
    if latest.None? || GreaterThan(v, latest.value) then Some(v) else latest
  }

  /** One turn of the loop. */
  function Step(latest: Option<Version>, tag: string, prefix: string, parse: Parser): Option<Version> {
    if Candidate(tag, prefix, parse) then Keep(latest, parse(tag).value) else latest
  }

  /** What `getVersion` returns for the tags, in the order `git tag` lists them. */
  function Select(tags: seq<string>, prefix: string, parse: Parser): Option<Version>
    decreases |tags|
  {
    if tags == [] then None
    else Step(Select(tags[..|tags| - 1], prefix, parse), tags[|tags| - 1], prefix, parse)
  }

  /** The tags the loop reports as unparsable, in order. */
  function Rejected(tags: seq<string>, prefix: string, parse: Parser): (r: seq<string>)
    ensures forall k :: 0 <= k < |r| ==> Unparsable(r[k], prefix, parse)
    decreases |tags|
  {
    if tags == [] then []
    else
      var last := tags[|tags| - 1];
      Rejected(tags[..|tags| - 1], prefix, parse) + (if Unparsable(last, prefix, parse) then [last] else [])
  }

  /** The selection loop of `getVersion`, over the tag lines. */
  method LatestTag(tags: seq<string>, prefix: string, parse: Parser) returns (latest: Option<Version>, rejected: seq<string>)
    ensures latest == Select(tags, prefix, parse)
    ensures rejected == Rejected(tags, prefix, parse)
  {
    latest, rejected := None, [];
    var i := 0;
    while i < |tags|
      invariant 0 <= i <= |tags|
      invariant latest == Select(tags[..i], prefix, parse)
      invariant rejected == Rejected(tags[..i], prefix, parse)
    {
      var tagName := tags[i];
      assert tags[..i + 1][..i] == tags[..i];
      if HasPrefix(tagName, prefix) {
        var v := parse(tagName);
        if v.None? {
          rejected := rejected + [tagName];
        } else if latest.None? || GreaterThan(v.value, latest.value) {
          latest := v;
        }
      }
      i := i + 1;
    }
    assert tags[..|tags|] == tags;
  }

  // ---- The result in terms of the parsed versions ----

  /** The versions of the candidate tags, in order. */
  function Candidates(tags: seq<string>, prefix: string, parse: Parser): (r: seq<Version>)
    ensures |r| <= |tags|
    decreases |tags|
  {
    if tags == [] then []
    else
      var last := tags[|tags| - 1];
      Candidates(tags[..|tags| - 1], prefix, parse) + (if Candidate(last, prefix, parse) then [parse(last).value] else [])
  }

  /** The strictly-greatest-so-far fold over a list of versions. */
  function Best(vs: seq<Version>): Option<Version>
    decreases |vs|
  {
    if vs == [] then None else Keep(Best(vs[..|vs| - 1]), vs[|vs| - 1])
  }

  /** Selection depends on the tags only through the versions of the candidates. */
  lemma {:induction false} SelectIsBest(tags: seq<string>, prefix: string, parse: Parser)
    ensures Select(tags, prefix, parse) == Best(Candidates(tags, prefix, parse))
    decreases |tags|
  {
    if tags != [] {
      var init, last := tags[..|tags| - 1], tags[|tags| - 1];
      SelectIsBest(init, prefix, parse);
      var c := Candidates(init, prefix, parse);
      if Candidate(last, prefix, parse) {
        var cs := c + [parse(last).value];
        assert cs[..|cs| - 1] == c;
      } else {
        assert c + [] == c;
      }
    }
  }

  /** A version belongs to the candidates exactly when some candidate tag parses to it. */
  lemma {:induction false} CandidatesSpec(tags: seq<string>, prefix: string, parse: Parser, v: Version)
    ensures v in Candidates(tags, prefix, parse) <==>
      exists i :: 0 <= i < |tags| && Candidate(tags[i], prefix, parse) && parse(tags[i]) == Some(v)
    decreases |tags|
  {
    if tags != [] {
      var init, last := tags[..|tags| - 1], tags[|tags| - 1];
      CandidatesSpec(init, prefix, parse, v);
      if exists i :: 0 <= i < |tags| && Candidate(tags[i], prefix, parse) && parse(tags[i]) == Some(v) {
        var i :| 0 <= i < |tags| && Candidate(tags[i], prefix, parse) && parse(tags[i]) == Some(v);
        if i < |tags| - 1 {
          assert init[i] == tags[i];
        }
      }
      if exists i :: 0 <= i < |init| && Candidate(init[i], prefix, parse) && parse(init[i]) == Some(v) {
        var i :| 0 <= i < |init| && Candidate(init[i], prefix, parse) && parse(init[i]) == Some(v);
        assert tags[i] == init[i];
      }
    }
  }

  /** No version means no candidates. */
  lemma {:induction false} BestNone(vs: seq<Version>)
    ensures Best(vs).None? <==> vs == []
  {
  }

  /**
   * The fold returns the first version that no version of the list exceeds;
   * every version before it is strictly less. So among versions of equal
   * precedence the earliest wins.
   */
  lemma {:induction false} BestSpec(vs: seq<Version>)
    requires vs != []
    ensures exists i ::
      && 0 <= i < |vs|
      && Best(vs) == Some(vs[i])
      && (forall j :: 0 <= j < |vs| ==> !GreaterThan(vs[j], vs[i]))
      && (forall j :: 0 <= j < i ==> GreaterThan(vs[i], vs[j]))
    decreases |vs|
  {
    var n := |vs| - 1;
    var init, v := vs[..n], vs[n];
    if init == [] {
      GreaterThanOrder(v, v, v);
      assert Best(vs) == Some(vs[0]);
    } else {
      BestSpec(init);
      var i :| 0 <= i < n && Best(init) == Some(init[i])
        && (forall j :: 0 <= j < n ==> !GreaterThan(init[j], init[i]))
        && (forall j :: 0 <= j < i ==> GreaterThan(init[i], init[j]));
      var w := init[i];
      if GreaterThan(v, w) {
        assert Best(vs) == Some(vs[n]);
        forall j | 0 <= j < |vs|
          ensures !GreaterThan(vs[j], vs[n])
        {
          GreaterThanOrder(vs[j], v, w);
          GreaterThanOrder(v, v, v);
          if j < n { assert vs[j] == init[j]; }
        }
        forall j | 0 <= j < n
          ensures GreaterThan(vs[n], vs[j])
        {
          assert vs[j] == init[j];
          GreaterThanOrder(v, vs[j], w);
        }
      } else {
        assert Best(vs) == Some(vs[i]);
        forall j | 0 <= j < |vs|
          ensures !GreaterThan(vs[j], vs[i])
        {
          if j < n { assert vs[j] == init[j]; }
        }
        forall j | 0 <= j < i
          ensures GreaterThan(vs[i], vs[j])
        {
          assert vs[j] == init[j];
        }
      }
    }
  }

  // ---- The result in terms of the tags ----

  /** No version is selected exactly when no tag has the prefix and parses. */
  lemma SelectNone(tags: seq<string>, prefix: string, parse: Parser)
    ensures Select(tags, prefix, parse).None? <==> forall i :: 0 <= i < |tags| ==> !Candidate(tags[i], prefix, parse)
  {
    SelectIsBest(tags, prefix, parse);
    var c := Candidates(tags, prefix, parse);
    BestNone(c);
    if c != [] {
      CandidatesSpec(tags, prefix, parse, c[0]);
    } else {
      forall i | 0 <= i < |tags| ensures !Candidate(tags[i], prefix, parse) {
        if Candidate(tags[i], prefix, parse) {
          CandidatesSpec(tags, prefix, parse, parse(tags[i]).value);
        }
      }
    }
  }

  /** A selected version is that of a candidate tag, and no candidate tag's version exceeds it. */
  lemma SelectMaximal(tags: seq<string>, prefix: string, parse: Parser)
    requires Select(tags, prefix, parse).Some?
    ensures exists i :: 0 <= i < |tags| && Candidate(tags[i], prefix, parse) && parse(tags[i]) == Select(tags, prefix, parse)
    ensures forall i :: 0 <= i < |tags| && Candidate(tags[i], prefix, parse) ==>
      !GreaterThan(parse(tags[i]).value, Select(tags, prefix, parse).value)
  {
    SelectIsBest(tags, prefix, parse);
    var c := Candidates(tags, prefix, parse);
    BestNone(c);
    BestSpec(c);
    var k :| 0 <= k < |c| && Best(c) == Some(c[k]) && (forall j :: 0 <= j < |c| ==> !GreaterThan(c[j], c[k]));
    CandidatesSpec(tags, prefix, parse, c[k]);
    forall i | 0 <= i < |tags| && Candidate(tags[i], prefix, parse)
      ensures !GreaterThan(parse(tags[i]).value, c[k])
    {
      CandidatesSpec(tags, prefix, parse, parse(tags[i]).value);
    }
  }

  /** Candidates of a concatenation. */
  lemma {:induction false} CandidatesAppend(a: seq<string>, b: seq<string>, prefix: string, parse: Parser)
    ensures Candidates(a + b, prefix, parse) == Candidates(a, prefix, parse) + Candidates(b, prefix, parse)
    decreases |b|
  {
    if b == [] {
      assert a + b == a;
    } else {
      var init := b[..|b| - 1];
      assert (a + b)[..|a + b| - 1] == a + init;
      assert (a + b)[|a + b| - 1] == b[|b| - 1];
      CandidatesAppend(a, init, prefix, parse);
    }
  }

  /** A tag without the prefix, or one that does not parse, can be removed without changing the selection. */
  lemma NonCandidateIgnored(before: seq<string>, tag: string, after: seq<string>, prefix: string, parse: Parser)
    requires !Candidate(tag, prefix, parse)
    ensures Select(before + [tag] + after, prefix, parse) == Select(before + after, prefix, parse)
  {
    SelectIsBest(before + [tag] + after, prefix, parse);
    SelectIsBest(before + after, prefix, parse);
    CandidatesAppend(before + [tag], after, prefix, parse);
    CandidatesAppend(before, [tag], prefix, parse);
    CandidatesAppend(before, after, prefix, parse);
    assert [tag][..0] == [];
    assert Candidates([tag], prefix, parse) == [];
    assert Candidates(before, prefix, parse) + [] == Candidates(before, prefix, parse);
  }

  /** The candidate tags, in order. */
  function CandidateTags(tags: seq<string>, prefix: string, parse: Parser): (r: seq<string>)
    ensures forall k :: 0 <= k < |r| ==> Candidate(r[k], prefix, parse)
    decreases |tags|
  {
    if tags == [] then []
    else
      var last := tags[|tags| - 1];
      CandidateTags(tags[..|tags| - 1], prefix, parse) + (if Candidate(last, prefix, parse) then [last] else [])
  }

  /** Keeping only the candidate tags leaves the selection unchanged. */
  lemma {:induction false} OnlyCandidatesMatter(tags: seq<string>, prefix: string, parse: Parser)
    ensures Select(CandidateTags(tags, prefix, parse), prefix, parse) == Select(tags, prefix, parse)
  {
    SameCandidates(tags, prefix, parse);
    SelectIsBest(tags, prefix, parse);
    SelectIsBest(CandidateTags(tags, prefix, parse), prefix, parse);
  }

  lemma {:induction false} SameCandidates(tags: seq<string>, prefix: string, parse: Parser)
    ensures Candidates(CandidateTags(tags, prefix, parse), prefix, parse) == Candidates(tags, prefix, parse)
    decreases |tags|
  {
    if tags != [] {
      var init, last := tags[..|tags| - 1], tags[|tags| - 1];
      SameCandidates(init, prefix, parse);
      var ct := CandidateTags(init, prefix, parse);
      if Candidate(last, prefix, parse) {
        CandidatesAppend(ct, [last], prefix, parse);
        assert [last][..0] == [];
      } else {
        assert ct + [] == ct;
      }
    }
  }

  // ---- An example ----

  /** With a parser that reads these four tags, `v2.0.0` is selected: the release outranks its pre-release, and `other` lacks the prefix. */
  lemma SelectExample(parse: Parser)
    requires parse("v1.0.0") == Some(Version(1, 0, 0, [], []))
    requires parse("v2.0.0-beta") == Some(Version(2, 0, 0, [Alphanumeric("beta")], []))
    requires parse("v2.0.0") == Some(Version(2, 0, 0, [], []))
    requires parse("v1.5") == None
    ensures Select(["v1.0.0", "v2.0.0-beta", "v1.5", "other", "v2.0.0"], "v", parse) == Some(Version(2, 0, 0, [], []))
  {
    var tags := ["v1.0.0", "v2.0.0-beta", "v1.5", "other", "v2.0.0"];
    var beta := Version(2, 0, 0, [Alphanumeric("beta")], []);
    assert HasPrefix("v1.0.0", "v") && HasPrefix("v2.0.0-beta", "v") && HasPrefix("v1.5", "v") && HasPrefix("v2.0.0", "v");
    assert !HasPrefix("other", "v") by { assert "other"[..1][0] == 'o'; }
    assert tags[..1][..0] == [] && tags[..2][..1] == tags[..1] && tags[..3][..2] == tags[..2];
    assert tags[..4][..3] == tags[..3] && tags[..5][..4] == tags[..4] && tags[..5] == tags;
    assert Select(tags[..1], "v", parse) == Some(Version(1, 0, 0, [], []));
    assert Select(tags[..2], "v", parse) == Some(beta);
    assert Select(tags[..3], "v", parse) == Some(beta);
    assert Select(tags[..4], "v", parse) == Some(beta);
  }
}
