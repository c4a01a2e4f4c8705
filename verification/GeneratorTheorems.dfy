/** What a generator makes can be published: its parts are determined by the rows, and every manifest check accepts them. */
module GeneratorTheorems {
  import opened Protocol
  import opened Digests
  import opened Replay
  import opened PhysicalRows
  import opened Parts
  import opened Generators
  import Texts

  // ---- There is only one way to cut ----

  lemma {:induction false} TotalPrefix(rows: seq<ReplayRow>, n: nat)
    requires n <= |rows|
    ensures ByteTotal(rows[..n]) <= ByteTotal(rows)
  {
    hide CanonicalLength;
    if n < |rows| {
      TotalPrefix(rows[..|rows| - 1], n);
      assert rows[..|rows| - 1][..n] == rows[..n];
    } else {
      assert rows[..n] == rows;
    }
  }

  /** A part within the limits has no full proper prefix. */
  lemma NoFullPrefix(l: Limits, part: seq<ReplayRow>, n: nat)
    requires WithinLimits(l, part) && n < |part|
    ensures !FullFor(l, part[..n], part[n])
  {
    TotalPrefix(part, n + 1);
    assert part[..n + 1][..n] == part[..n];
  }

  /** The first part and the others. */
  lemma {:induction false} ConcatFront(parts: seq<seq<ReplayRow>>)
    requires parts != []
    ensures Concat(parts) == parts[0] + Concat(parts[1..])
  {
    hide Concat;
    NothingToConcat();
    var n := |parts| - 1;
    var front := parts[..n];
    ConcatStep(front, parts[n]);
    assert parts == front + [parts[n]];
    if n == 0 {
      assert front == [] && parts[1..] == [];
      assert [] + parts[0] == parts[0] + [];
    } else {
      ConcatFront(front);
      ConcatStep(front[1..], parts[n]);
      assert parts[1..] == front[1..] + [parts[n]];
      Texts.Regroup(parts[0], Concat(front[1..]), parts[n]);
    }
  }

  lemma FirstAgrees(l: Limits, a: seq<seq<ReplayRow>>, b: seq<seq<ReplayRow>>)
    requires AllWithin(l, a) && AllWithin(l, b) && Greedy(l, a) && a != [] && b != [] && Concat(a) == Concat(b)
    ensures |a[0]| >= |b[0]|
  {
    hide WithinLimits, FullFor, Concat;
    if |a[0]| < |b[0]| {
      var n := |a[0]|;
      ConcatFront(a);
      ConcatFront(b);
      assert WithinLimits(l, b[0]);
      assert b[0][..n] == Concat(b)[..n] == a[0];
      assert |Concat(a)| > n;
      if |a| == 1 {
        assert a[1..] == [];
        NothingToConcat();
      } else {
        assert FullBefore(l, a, 1);
        ConcatFront(a[1..]);
        assert a[1..][0] == a[1];
        assert a[1][0] == Concat(a)[n] == Concat(b)[n] == b[0][n];
      }
      NoFullPrefix(l, b[0], n);
    }
  }

  lemma NothingToConcat()
    ensures Concat([]) == []
  {
  }

  lemma TailIsCut(l: Limits, parts: seq<seq<ReplayRow>>)
    requires AllWithin(l, parts) && Greedy(l, parts) && parts != []
    ensures AllWithin(l, parts[1..]) && Greedy(l, parts[1..])
  {
    hide WithinLimits, FullFor;
    forall i | 0 < i < |parts[1..]| ensures FullBefore(l, parts[1..], i) {
      assert FullBefore(l, parts, i + 1);
    }
  }

  /** The cut is determined by the rows and the limits. */
  lemma {:induction false} CutIsUnique(l: Limits, a: seq<seq<ReplayRow>>, b: seq<seq<ReplayRow>>)
    requires AllWithin(l, a) && AllWithin(l, b) && Greedy(l, a) && Greedy(l, b) && Concat(a) == Concat(b)
    ensures a == b
    decreases |a|
  {
    hide Greedy, Concat;
    if a == [] || b == [] {
      NothingToConcat();
      if a != [] {
        ConcatFront(a);
      }
      if b != [] {
        ConcatFront(b);
      }
    } else {
      FirstAgrees(l, a, b);
      FirstAgrees(l, b, a);
      ConcatFront(a);
      ConcatFront(b);
      assert a[0] == Concat(a)[..|a[0]|] == b[0];
      assert Concat(a[1..]) == Concat(a)[|a[0]|..] == Concat(b[1..]);
      TailIsCut(l, a);
      TailIsCut(l, b);
      CutIsUnique(l, a[1..], b[1..]);
      assert a == [a[0]] + a[1..] && b == [b[0]] + b[1..];
    }
  }

  lemma {:induction false} SummariesUnique(w: Writer, scope: ReplayScope, parts: seq<seq<ReplayRow>>, a: seq<Artifact>, b: seq<Artifact>)
    requires Summaries(w, scope, parts, a) && Summaries(w, scope, parts, b)
    ensures a == b
  {
    hide ArtifactFor, Packable, StreamFrom, AllInScope, Concat, ChainFrom;
    if parts != [] {
      var n := |parts| - 1;
      SummariesUnique(w, scope, parts[..n], a[..n], b[..n]);
      assert a == a[..n] + [a[n]] && b == b[..n] + [b[n]];
    }
  }

  /** Generation is deterministic: the same rows give the same parts, summaries and totals, whatever failed on the way. */
  lemma SameRowsSameParts(l: Limits, scope: ReplayScope, w: Writer, rows: seq<ReplayRow>, a: seq<seq<ReplayRow>>,
                          b: seq<seq<ReplayRow>>, g: Generated, h: Generated)
    requires Cut(l, scope, w, rows, a, g) && Cut(l, scope, w, rows, b, h)
    ensures a == b && g == h
  {
    hide AllWithin, Greedy, Concat, Summaries, StreamFrom, ChainFrom;
    CutIsUnique(l, a, b);
    SummariesUnique(w, scope, a, g.parts, h.parts);
  }

  // ---- The manifests of the parts ----

  /** Each part's manifest, built on the one before. */
  function Manifests(scope: ReplayScope, c: Conversion, artifacts: seq<Artifact>, n: nat): Option<seq<PartManifest>>
    requires n <= |artifacts|
  {
    if n == 0 then Some([]) else
    var before := Manifests(scope, c, artifacts, n - 1);
    if before.None? then None else
    var p := BuildPart(scope, c, artifacts[n - 1], if before.value == [] then None else Some(before.value[|before.value| - 1]));
    if p.None? then None else Some(before.value + [p.value])
  }

  lemma {:induction false} SummaryAt(w: Writer, scope: ReplayScope, parts: seq<seq<ReplayRow>>, artifacts: seq<Artifact>, i: nat)
    requires Summaries(w, scope, parts, artifacts) && i < |parts|
    ensures && parts[i] != [] && Packable(parts[i]) && parts[i][0].streamSequence == |Concat(parts[..i])|
            && StreamFrom(parts[i][0].streamSequence, parts[i])
            && artifacts[i] == ArtifactFor(w, scope, i, ChainFrom(Zero, Concat(parts[..i])), parts[i])
  {
    hide ArtifactFor, Packable, StreamFrom, AllInScope, Concat, ChainFrom;
    var n := |parts| - 1;
    if i < n {
      SummaryAt(w, scope, parts[..n], artifacts[..n], i);
      assert parts[..n][..i] == parts[..i];
    }
  }

  lemma {:induction false} ConcatNonempty(w: Writer, scope: ReplayScope, parts: seq<seq<ReplayRow>>, artifacts: seq<Artifact>, n: nat)
    requires Summaries(w, scope, parts, artifacts) && 0 < n <= |parts|
    ensures Concat(parts[..n]) != []
  {
    hide Summaries;
    SummaryAt(w, scope, parts, artifacts, n - 1);
  }

  lemma ChainIsNotZero(start: Digest, rows: seq<ReplayRow>)
    requires rows != []
    ensures ChainFrom(start, rows) != Zero
  {
  }

  lemma {:induction false} PackableBound(rows: seq<ReplayRow>)
    requires Packable(rows) && rows != []
    ensures rows[|rows| - 1].streamSequence < MAX_U64 && 0 < ByteTotal(rows)
  {
    hide RowValid;
  }

  lemma SummaryIsOk(w: Writer, scope: ReplayScope, parts: seq<seq<ReplayRow>>, artifacts: seq<Artifact>, i: nat)
    requires Summaries(w, scope, parts, artifacts) && i < |parts| && ScopeValid(scope)
    ensures SummaryOk(scope, artifacts[i]) && artifacts[i].partSequence == i && artifacts[i].last < MAX_U64
    ensures artifacts[i].first == |Concat(parts[..i])| && artifacts[i].last + 1 == artifacts[i].first + |parts[i]|
    ensures artifacts[i].previous == ChainFrom(Zero, Concat(parts[..i]))
    ensures artifacts[i].lastHash == ChainFrom(artifacts[i].previous, parts[i])
    ensures i == 0 ==> artifacts[i].previous == Zero
  {
    hide Summaries, ScopeValid, Packable, StreamFrom, Concat, ChainFrom, ByteTotal, CanonicalLength, RowValid;
    SummariesLength(w, scope, parts, artifacts);
    SummaryAt(w, scope, parts, artifacts, i);
    PackableBound(parts[i]);
    StreamFromAt(parts[i][0].streamSequence, parts[i], |parts[i]| - 1);
    ChainIsNotZero(artifacts[i].previous, parts[i]);
    if i == 0 {
      assert parts[..0] == [];
      NothingToConcat();
      NoFlushedNoHash([]);
    } else {
      ConcatNonempty(w, scope, parts, artifacts, i);
      ChainIsNotZero(Zero, Concat(parts[..i]));
    }
  }

  lemma Adjacent(w: Writer, scope: ReplayScope, parts: seq<seq<ReplayRow>>, artifacts: seq<Artifact>, i: nat)
    requires Summaries(w, scope, parts, artifacts) && 0 < i < |parts| && ScopeValid(scope)
    ensures artifacts[i].previous == artifacts[i - 1].lastHash && artifacts[i].first == artifacts[i - 1].last + 1
  {
    hide Summaries, ScopeValid, ChainFrom, SummaryOk;
    SummaryIsOk(w, scope, parts, artifacts, i);
    SummaryIsOk(w, scope, parts, artifacts, i - 1);
    assert parts[..i][..i - 1] == parts[..i - 1];
    ChainFromConcat(Zero, Concat(parts[..i - 1]), parts[i - 1]);
  }

  predicate NamedConversion(scope: ReplayScope, c: Conversion) {
    ConversionOk(scope, c) && IsName(c.build) && IsName(c.platform)
  }

  lemma BuildsFirst(scope: ReplayScope, c: Conversion, a: Artifact)
    requires ScopeValid(scope) && NamedConversion(scope, c) && SummaryOk(scope, a) && a.partSequence == 0 && a.previous == Zero
    ensures var p := BuildPart(scope, c, a, None);
            && p.Some? && Strict(p.value) && p.value.artifact == a && p.value.scope == scope && p.value.conversion == c && p.value.predecessor.None?
            && a.first == 0
  {
    hide ScopeValid, ArtifactFields, REPLAY_FORMAT;
  }

  lemma BuildsNext(scope: ReplayScope, c: Conversion, a: Artifact, p: PartManifest)
    requires ScopeValid(scope) && NamedConversion(scope, c) && SummaryOk(scope, a) && a.partSequence == p.artifact.partSequence + 1
    requires Strict(p) && p.scope == scope && p.conversion == c && a.previous == p.artifact.lastHash && p.artifact.partSequence < MAX_U32
    ensures var q := BuildPart(scope, c, a, Some(p));
            && q.Some? && Strict(q.value) && q.value.artifact == a && q.value.scope == scope && q.value.conversion == c
            && q.value.predecessor == Some(PartDigest(p))
  {
    hide ScopeValid, ArtifactFields, REPLAY_FORMAT;
  }

  /** The manifest of the next part builds on those before it. */
  lemma NextManifest(w: Writer, scope: ReplayScope, c: Conversion, parts: seq<seq<ReplayRow>>, artifacts: seq<Artifact>,
                     before: seq<PartManifest>)
    requires Summaries(w, scope, parts, artifacts) && |before| < |artifacts| <= MAX_U32 + 1 && ScopeValid(scope) && NamedConversion(scope, c)
    requires DayOk(before, scope, c, |before|) && (before != [] ==> before[|before| - 1].artifact == artifacts[|before| - 1])
    ensures var p := BuildPart(scope, c, artifacts[|before|], if before == [] then None else Some(before[|before| - 1]));
            p.Some? && p.value.artifact == artifacts[|before|] && DayOk(before + [p.value], scope, c, |before| + 1)
  {
    hide Summaries, ScopeValid, NamedConversion, SummaryOk, BuildPart, Strict, PartDigest, DayOk, ChainFrom, Concat;
    SummariesLength(w, scope, parts, artifacts);
    var n := |before|;
    SummaryIsOk(w, scope, parts, artifacts, n);
    if n == 0 {
      BuildsFirst(scope, c, artifacts[0]);
      DayOkAppends(before, BuildPart(scope, c, artifacts[0], None).value, scope, c);
    } else {
      LastIsStrict(before, scope, c, n);
      SummaryIsOk(w, scope, parts, artifacts, n - 1);
      Adjacent(w, scope, parts, artifacts, n);
      BuildsNext(scope, c, artifacts[n], before[n - 1]);
      DayOkAppends(before, BuildPart(scope, c, artifacts[n], Some(before[n - 1])).value, scope, c);
    }
  }

  lemma DayOkAppends(ms: seq<PartManifest>, m: PartManifest, scope: ReplayScope, c: Conversion)
    requires DayOk(ms, scope, c, |ms|) && Strict(m) && m.artifact.partSequence == |ms| && m.scope == scope && m.conversion == c
    requires if ms == [] then m.artifact.first == 0 && m.predecessor.None? && m.artifact.previous == Zero else Continues(ms[|ms| - 1], m)
    ensures DayOk(ms + [m], scope, c, |ms| + 1)
  {
    hide Strict, Continues;
    DayOkExtends(ms, m, scope, c, |ms|);
  }

  /** A manifest can be built for every part in turn, and together they pass the checks on a day's parts. */
  lemma {:induction false} ManifestsAreAccepted(w: Writer, scope: ReplayScope, c: Conversion, parts: seq<seq<ReplayRow>>,
                                                artifacts: seq<Artifact>, n: nat)
    requires Summaries(w, scope, parts, artifacts) && n <= |artifacts| <= MAX_U32 + 1 && ScopeValid(scope) && NamedConversion(scope, c)
    ensures Manifests(scope, c, artifacts, n).Some?
    ensures var ms := Manifests(scope, c, artifacts, n).value;
            && |ms| == n && DayOk(ms, scope, c, n) && forall i :: 0 <= i < n ==> ms[i].artifact == artifacts[i]
  {
    hide Summaries, ScopeValid, NamedConversion, BuildPart, Strict, Continues;
    if n > 0 {
      ManifestsAreAccepted(w, scope, c, parts, artifacts, n - 1);
      NextManifest(w, scope, c, parts, artifacts, Manifests(scope, c, artifacts, n - 1).value);
    }
  }

  lemma LastIsStrict(ms: seq<PartManifest>, scope: ReplayScope, c: Conversion, n: nat)
    requires 0 < n <= |ms| && DayOk(ms, scope, c, n)
    ensures Strict(ms[n - 1]) && ms[n - 1].scope == scope && ms[n - 1].conversion == c && ms[n - 1].artifact.partSequence == n - 1
  {
    hide Strict, Continues;
  }

  lemma {:induction false} DayOkExtends(ms: seq<PartManifest>, m: PartManifest, scope: ReplayScope, c: Conversion, n: nat)
    requires n <= |ms| && DayOk(ms, scope, c, n)
    ensures DayOk(ms + [m], scope, c, n)
  {
    hide Strict, Continues;
    if n > 0 {
      DayOkExtends(ms, m, scope, c, n - 1);
    }
  }

  /**
   From rows to a publishable day: the manifests of a closed generator are accepted as a day's parts, and the root that
   the day manifest must carry, the last part's, is the chain root of the rows that were written.
   */
  lemma GeneratedIsPublishable(l: Limits, scope: ReplayScope, w: Writer, c: Conversion, rows: seq<ReplayRow>,
                               parts: seq<seq<ReplayRow>>, g: Generated)
    requires Cut(l, scope, w, rows, parts, g) && NamedConversion(scope, c)
    ensures Manifests(scope, c, g.parts, |g.parts|).Some?
    ensures var ms := Manifests(scope, c, g.parts, |g.parts|).value;
            && DayOk(ms, scope, c, |ms|) && SetRoot(ms).Some?
            && (if rows == [] then ms == [] && g.root == Zero else ms != [] && ms[|ms| - 1].artifact.lastHash == g.root == ChainFrom(Zero, rows))
  {
    hide Summaries, ScopeValid, NamedConversion, AllWithin, Greedy, StreamFrom, DayOk, Manifests, Concat, ChainFrom, SetOk, SetFields;
    ManifestsAreAccepted(w, scope, c, parts, g.parts, |g.parts|);
    var ms := Manifests(scope, c, g.parts, |g.parts|).value;
    DayOkIsSetOk(ms, scope, c, |ms|);
    SummariesLength(w, scope, parts, g.parts);
    if parts == [] {
      NothingToConcat();
      NoFlushedNoHash([]);
    } else {
      var n := |parts| - 1;
      SummaryIsOk(w, scope, parts, g.parts, n);
      ConcatNonempty(w, scope, parts, g.parts, |parts|);
      assert parts[..|parts|] == parts && parts == parts[..n] + [parts[n]];
      ConcatStep(parts[..n], parts[n]);
      ChainFromConcat(Zero, Concat(parts[..n]), parts[n]);
    }
  }
}
