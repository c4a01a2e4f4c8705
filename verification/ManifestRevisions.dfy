/** When a later revision of a raw-day manifest may follow an earlier one. */
module ManifestRevisions {
  import opened Protocol
  import opened Digests
  import opened Counting
  import opened DaySelection
  import opened DayCoordinates
  import opened DaySlices
  import opened Segments
  import opened Manifest
  import opened ManifestTheorems

  lemma {:induction false} TouchingConcat(a: seq<RawObject>, b: seq<RawObject>, lo: nat, hi: nat)
    ensures Touching(a + b, lo, hi) == Touching(a, lo, hi) + Touching(b, lo, hi)
  {
    hide Touches;
    if b == [] {
      assert a + b == a;
    } else {
      var n := |b| - 1;
      TouchingConcat(a, b[..n], lo, hi);
      assert (a + b)[..|a| + n] == a + b[..n];
    }
  }

  lemma {:induction false} TouchingAgrees(objects: seq<RawObject>, lo: nat, hi: nat, more: nat)
    requires hi <= more && forall i :: 0 <= i < |objects| ==> objects[i].segment.start <= hi
    ensures Touching(objects, lo, hi) == Touching(objects, lo, more)
  {
    if objects != [] {
      TouchingAgrees(objects[..|objects| - 1], lo, hi, more);
    }
  }

  /** A slice that ends later touches the same objects and then perhaps more. */
  lemma {:induction false} TouchingGrows(objects: seq<RawObject>, lo: nat, hi: nat, more: nat)
    requires Contiguous(objects) && lo <= hi <= more
    ensures Touching(objects, lo, hi) <= Touching(objects, lo, more)
  {
    hide Sealed, Follows;
    if objects != [] {
      var n := |objects| - 1;
      TouchingGrows(objects[..n], lo, hi, more);
      if Touches(objects[n], lo, hi) {
        forall i | 0 <= i < n ensures objects[..n][i].segment.start <= hi {
          ContiguousOrder(objects, i, n);
          ContiguousAt(objects, i);
          SealedSpan(objects[i]);
        }
        TouchingAgrees(objects[..n], lo, hi, more);
      }
    }
  }

  lemma ChainGrows(objects: seq<RawObject>, more: seq<RawObject>, lo: nat, hi: nat, later: nat)
    requires Contiguous(objects) && 0 < lo <= hi <= later
    ensures ChainFor(objects, lo, hi) <= ChainFor(objects + more, lo, later)
  {
    hide Contiguous, Touching;
    TouchingGrows(objects, lo, hi, later);
    TouchingConcat(objects, more, lo, later);
    var a, b := Touching(objects, lo, hi), Touching(objects + more, lo, later);
    assert b[..|a|] == a;
    assert Descriptors(b)[..|a|] == Descriptors(a);
  }

  lemma {:induction false} WatermarkIffAccepted(items: seq<Item>, day: int, maxRecords: nat)
    requires Derive(items, day, 0, 0, maxRecords).Some?
    ensures var s := Derive(items, day, 0, 0, maxRecords).value;
            (s.hasWatermark <==> s.accepted > 0) && (!s.hasWatermark ==> s.throughMsc == 0)
  {
    hide OrdinalsOn, DayOrdinals, RangesOf;
    if items != [] {
      var n := |items| - 1;
      WatermarkIffAccepted(items[..n], day, maxRecords);
      var before := Derive(items[..n], day, 0, 0, maxRecords).value;
      ObserveGrows(before, items[n].entry.frame.records, day, |items[n].entry.frame.records|);
    }
  }

  /** The watermark of a day's records is negative exactly when the day lies before the first of January 1970. */
  lemma WatermarkSign(items: seq<Item>, day: int, maxRecords: nat)
    requires Derive(items, day, 0, 0, maxRecords).Some? && Derive(items, day, 0, 0, maxRecords).value.hasWatermark
    ensures Derive(items, day, 0, 0, maxRecords).value.throughMsc >= 0 <==> day >= 0
  {
    hide Derive;
    var i, o := WatermarkIsMaximum(items, day, maxRecords);
  }

  /** When an earlier and a later derivation of one day may be consecutive revisions. */
  predicate MayFollow(p: Manifest, m: Manifest) {
    (p.objects == [] ==> m.objects == []) && (p.day >= 0 || p.accepted > 0 || m.accepted == 0)
  }

  /**
   Revisions only grow. When segments have only been appended, the new derivation passes every check against
   the previous manifest, except in two cases, in which it never does: the previous revision of the day was
   empty and this one is not, or it selected only batches without records and the day lies before 1970.
   */
  lemma RevisionAcceptedIff(p: Manifest, m: Manifest, objects: seq<RawObject>, more: seq<RawObject>, s: Selection, t: Selection,
                            maxRecords: nat)
    requires Carries(p, objects, s, maxRecords) && Carries(m, objects + more, t, maxRecords)
    requires Valid(p) && p.identity == m.identity && p.day == m.day
    ensures PreviousOk(p, m) <==> MayFollow(p, m)
  {
    hide Contiguous, Items, Derive, Valid, ChainFor, Extends;
    var items, all := Items(objects), Items(objects + more);
    ItemsConcat(objects, more);
    ContiguousItems(objects + more);
    ChainedNumbered(all);
    SelectionGrows(items, Items(more), m.day, maxRecords);
    WatermarksCompare(items, all, m.day, maxRecords);
    EmptySelection(objects, m.day, maxRecords);
    EmptySelection(objects + more, m.day, maxRecords);
    ContiguousItems(objects);
    ChainedNumbered(items);
    if s.startSequence == 0 {
      EmptyDerivation(objects, m.day, maxRecords);
      EmptyChain(objects, s);
      if t.startSequence == 0 {
        EmptyDerivation(objects + more, m.day, maxRecords);
        EmptyChain(objects + more, t);
      }
    } else {
      SliceIsForward(items, m.day, maxRecords);
      ExtendsParts(s, t);
      ChainGrows(objects, more, s.startSequence, s.endSequence, t.endSequence);
    }
  }

  lemma ExtendsParts(s: Selection, t: Selection)
    requires Extends(s, t)
    ensures s.objects <= t.objects && s.accepted <= t.accepted && s.errors <= t.errors && s.throughCapture <= t.throughCapture
    ensures s.startSequence != 0 ==> t.startSequence == s.startSequence && t.startRoot == s.startRoot
    ensures s.endSequence <= t.endSequence && (s.endSequence == t.endSequence ==> s.endRoot == t.endRoot)
  {
  }

  lemma EmptyChain(objects: seq<RawObject>, s: Selection)
    requires s.startSequence == 0
    ensures ChainFor(objects, s.startSequence, s.endSequence) == []
  {
  }

  lemma EmptyDerivation(objects: seq<RawObject>, day: int, maxRecords: nat)
    requires Contiguous(objects) && Derive(Items(objects), day, 0, 0, maxRecords).Some?
    requires Derive(Items(objects), day, 0, 0, maxRecords).value.startSequence == 0
    ensures Derive(Items(objects), day, 0, 0, maxRecords) == Some(EMPTY)
  {
    hide Contiguous, Items, Derive, Quiet;
    ContiguousItems(objects);
    ChainedNumbered(Items(objects));
    var a, b := SliceBounds(Items(objects), day, maxRecords);
  }

  lemma SliceIsForward(items: seq<Item>, day: int, maxRecords: nat)
    requires Chained(items) && Derive(items, day, 0, 0, maxRecords).Some?
    ensures var s := Derive(items, day, 0, 0, maxRecords).value;
            s.startSequence != 0 ==> s.startSequence <= s.endSequence
  {
    hide Derive, Quiet, Chained;
    ChainedNumbered(items);
    var a, b := SliceBounds(items, day, maxRecords);
    if Derive(items, day, 0, 0, maxRecords).value.startSequence != 0 {
      ChainedAt(items, a, b);
    }
  }

  lemma WatermarksCompare(items: seq<Item>, all: seq<Item>, day: int, maxRecords: nat)
    requires Derive(items, day, 0, 0, maxRecords).Some? && Derive(all, day, 0, 0, maxRecords).Some?
    requires Extends(Derive(items, day, 0, 0, maxRecords).value, Derive(all, day, 0, 0, maxRecords).value)
    ensures var s, t := Derive(items, day, 0, 0, maxRecords).value, Derive(all, day, 0, 0, maxRecords).value;
            s.throughMsc <= t.throughMsc <==> day >= 0 || s.accepted > 0 || t.accepted == 0
  {
    hide Derive;
    WatermarkIffAccepted(items, day, maxRecords);
    WatermarkIffAccepted(all, day, maxRecords);
    if Derive(all, day, 0, 0, maxRecords).value.hasWatermark {
      WatermarkSign(all, day, maxRecords);
    }
  }

  /** The next revision can be built exactly when it fits and may follow. */
  lemma RevisionBuildsIff(scope: Scope, day: int, objects: seq<RawObject>, more: seq<RawObject>, first: seq<RawObject>,
                          second: seq<RawObject>, asked: nat, previous: Option<Manifest>)
    requires Contiguous(objects) && Contiguous(objects + more) && AllDistinct(Keys(objects)) && AllDistinct(Keys(objects + more))
    requires multiset(first) == multiset(objects) && multiset(second) == multiset(objects + more)
    requires Build(scope, day, first, asked, previous).Some?
    ensures var p := Build(scope, day, first, asked, previous).value;
            var d := Derive(Items(objects + more), day, 0, 0, scope.maxRecords);
            Build(scope, day, second, 0, Some(p)).Some? <==>
              && d.Some? && |d.value.objects| <= MAX_U32
              && (p.objects == [] ==> d.value.objects == []) && (day >= 0 || p.accepted > 0 || d.value.accepted == 0)
  {
    hide Contiguous, Items, Derive, Ordered, ChainFor, InOrder, Valid, ManifestDigest, PreviousOk, RangeValid;
    var p := Build(scope, day, first, asked, previous).value;
    var s := BuiltCarries(scope, day, objects, first, asked, previous) by { hide Build; }
    OrderIsFound(objects + more, second);
    var d := Derive(Items(objects + more), day, 0, 0, scope.maxRecords);
    if d.Some? {
      SelectedRangesAreOrdered(objects + more, day, scope.maxRecords);
      RootIffFew(d.value.objects);
      if RawSetRoot(d.value.objects).Some? {
        var draft := Drafted(scope, day, p.revision + 1, objects + more, d.value, RawSetRoot(d.value.objects).value);
        RevisionAcceptedIff(p, draft, objects, more, s, d.value, scope.maxRecords);
        CarriedIsValid(draft.(previous := Some(ManifestDigest(p))), objects + more, d.value, scope.maxRecords);
        ValidRevision(p);
      }
    }
  }

  lemma ValidRevision(p: Manifest)
    requires Valid(p)
    ensures 1 <= p.revision && Named(p.identity)
  {
  }

  lemma RootIffFew(rs: seq<Range>)
    requires forall k :: 0 <= k < |rs| ==> RangeValid(rs[k])
    ensures RawSetRoot(rs).Some? <==> |rs| <= MAX_U32
  {
  }
}
