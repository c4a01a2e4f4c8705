/** Entries that hold nothing of the day can be dropped, and entries that are added only extend the selection. */
module DaySlices {
  import opened Protocol
  import opened Digests
  import opened DaySelection
  import opened DayCoordinates
  import Texts

  predicate AllQuiet(items: seq<Item>, day: int) {
    forall i :: 0 <= i < |items| ==> Quiet(items[i], day)
  }

  lemma {:induction false} CoordinatesConcat(a: seq<Item>, b: seq<Item>, day: int)
    ensures Coordinates(a + b, day) == Coordinates(a, day) + Coordinates(b, day)
  {
    hide Coordinates;
    if b == [] {
      assert a + b == a;
      NoneHasNone(day);
    } else {
      var n := |b| - 1;
      CoordinatesConcat(a, b[..n], day);
      CoordinatesStep(a + b[..n], b[n], day);
      CoordinatesStep(b[..n], b[n], day);
      assert a + b == a + b[..n] + [b[n]] && b == b[..n] + [b[n]];
      Texts.Regroup(Coordinates(a, day), Coordinates(b[..n], day), At(b[n].entry.sequence, DayOrdinals(b[n].entry.frame, day)));
    }
  }

  lemma CoordinatesStep(items: seq<Item>, it: Item, day: int)
    ensures Coordinates(items + [it], day) == Coordinates(items, day) + At(it.entry.sequence, DayOrdinals(it.entry.frame, day))
  {
    hide DayOrdinals;
    assert (items + [it])[..|items|] == items;
  }

  lemma NoneHasNone(day: int)
    ensures Coordinates([], day) == []
  {
  }

  lemma {:induction false} NoCoordinatesIff(items: seq<Item>, day: int)
    ensures Coordinates(items, day) == [] <==> AllQuiet(items, day)
  {
    hide DayOrdinals;
    if items != [] {
      var n := |items| - 1;
      NoCoordinatesIff(items[..n], day);
      assert |Coordinates(items, day)| == |Coordinates(items[..n], day)| + |DayOrdinals(items[n].entry.frame, day)|;
      assert forall i :: 0 <= i < n ==> items[..n][i] == items[i];
    }
  }

  predicate WithinLimit(items: seq<Item>, maxRecords: nat) {
    forall i :: 0 <= i < |items| ==> |items[i].entry.frame.records| <= maxRecords
  }

  lemma {:induction false} DeriveSucceedsIff(items: seq<Item>, day: int, maxRecords: nat)
    ensures Derive(items, day, 0, 0, maxRecords).Some? <==> WithinLimit(items, maxRecords)
  {
    hide Absorb;
    if items != [] {
      var n := |items| - 1;
      DeriveSucceedsIff(items[..n], day, maxRecords);
      if WithinLimit(items[..n], maxRecords) && |items[n].entry.frame.records| <= maxRecords {
        assert forall i :: 0 <= i < n ==> items[..n][i] == items[i];
      } else if !WithinLimit(items[..n], maxRecords) {
        var i :| 0 <= i < n && |items[..n][i].entry.frame.records| > maxRecords;
        assert |items[i].entry.frame.records| > maxRecords;
      }
    }
  }

  lemma {:induction false} DeriveQuiet(items: seq<Item>, day: int, maxRecords: nat)
    requires AllQuiet(items, day) && WithinLimit(items, maxRecords)
    ensures Derive(items, day, 0, 0, maxRecords) == Some(EMPTY)
  {
    hide Quiet;
    if items != [] {
      DeriveQuiet(items[..|items| - 1], day, maxRecords);
    }
  }

  lemma {:induction false} QuietPrefix(quiet: seq<Item>, items: seq<Item>, day: int, maxRecords: nat)
    requires AllQuiet(quiet, day) && WithinLimit(quiet, maxRecords)
    ensures Derive(quiet + items, day, 0, 0, maxRecords) == Derive(items, day, 0, 0, maxRecords)
  {
    hide Quiet, Absorb;
    if items == [] {
      DeriveQuiet(quiet, day, maxRecords);
      assert quiet + items == quiet;
    } else {
      var n := |items| - 1;
      QuietPrefix(quiet, items[..n], day, maxRecords);
      assert (quiet + items)[..|quiet| + n] == quiet + items[..n];
    }
  }

  lemma {:induction false} QuietSuffix(items: seq<Item>, quiet: seq<Item>, day: int, maxRecords: nat)
    requires AllQuiet(quiet, day) && WithinLimit(quiet, maxRecords)
    ensures Derive(items + quiet, day, 0, 0, maxRecords) == Derive(items, day, 0, 0, maxRecords)
  {
    hide Quiet;
    if quiet == [] {
      assert items + quiet == items;
    } else {
      var n := |quiet| - 1;
      QuietSuffix(items, quiet[..n], day, maxRecords);
      assert (items + quiet)[..|items| + n] == items + quiet[..n];
    }
  }

  /** Bounds that only leave out quiet entries make no difference. */
  lemma {:induction false} BoundsDoNotMatter(items: seq<Item>, day: int, lo: nat, hi: nat, maxRecords: nat)
    requires WithinLimit(items, maxRecords)
    requires forall i :: 0 <= i < |items| ==> Skipped(items[i], lo, hi) ==> Quiet(items[i], day)
    ensures Derive(items, day, lo, hi, maxRecords) == Derive(items, day, 0, 0, maxRecords)
  {
    hide Quiet, Skipped;
    if items != [] {
      var n := |items| - 1;
      BoundsDoNotMatter(items[..n], day, lo, hi, maxRecords);
      NoBounds(items[n]);
    }
  }

  lemma NoBounds(it: Item)
    ensures !Skipped(it, 0, 0)
  {
  }

  // ---- The chain slice ----

  /** The selection starts at entry `a` and ends at entry `b`, the first and last that hold anything of the day. */
  predicate SliceAt(items: seq<Item>, day: int, s: Selection, a: nat, b: nat) {
    && a <= b < |items| && !Quiet(items[a], day) && !Quiet(items[b], day)
    && AllQuiet(items[..a], day) && AllQuiet(items[b + 1..], day)
    && s.startSequence == items[a].entry.sequence && s.startRoot == items[a].entry.previous
    && s.endSequence == items[b].entry.sequence && s.endRoot == items[b].entry.entryHash
    && s.objects != []
  }

  lemma {:induction false} SliceBounds(items: seq<Item>, day: int, maxRecords: nat) returns (a: nat, b: nat)
    requires Numbered(items) && Derive(items, day, 0, 0, maxRecords).Some?
    ensures var s := Derive(items, day, 0, 0, maxRecords).value;
            if s.startSequence == 0 then s == EMPTY && AllQuiet(items, day) else SliceAt(items, day, s, a, b)
  {
    hide Quiet, RangesOf, Observe;
    a, b := 0, 0;
    if items != [] {
      var n := |items| - 1;
      a, b := SliceBounds(items[..n], day, maxRecords);
      var before, s := Derive(items[..n], day, 0, 0, maxRecords).value, Derive(items, day, 0, 0, maxRecords).value;
      if !Quiet(items[n], day) {
        HasRanges(items[n], day);
        if before.startSequence == 0 {
          a := n;
        } else {
          assert items[..n][..a] == items[..a];
        }
        b := n;
      } else if before.startSequence != 0 {
        assert items[..n][..a] == items[..a];
        assert items[b + 1..] == items[..n][b + 1..] + [items[n]];
      }
    }
  }

  lemma HasRanges(it: Item, day: int)
    requires !Quiet(it, day)
    ensures RangesOf(it, day) != []
  {
  }

  // ---- Growth ----

  /** What a later revision may add to an earlier one. */
  predicate Extends(a: Selection, b: Selection) {
    && a.objects <= b.objects && a.accepted <= b.accepted && a.errors <= b.errors
    && a.throughCapture <= b.throughCapture && (a.hasWatermark ==> b.hasWatermark && a.throughMsc <= b.throughMsc)
    && (a.startSequence != 0 ==> b.startSequence == a.startSequence && b.startRoot == a.startRoot)
    && a.endSequence <= b.endSequence && (a.endSequence == b.endSequence ==> a.endRoot == b.endRoot)
  }

  lemma AbsorbExtends(s: Selection, it: Item, day: int)
    requires s.endSequence < it.entry.sequence
    ensures Extends(s, Absorb(s, it, day))
  {
    hide OrdinalsOn, DayOrdinals, RangesOf;
    ObserveGrows(s, it.entry.frame.records, day, |it.entry.frame.records|);
  }

  lemma ExtendsTransitive(a: Selection, b: Selection, c: Selection)
    requires Extends(a, b) && Extends(b, c)
    ensures Extends(a, c)
  {
  }

  lemma {:induction false} EndIsBehind(items: seq<Item>, day: int, maxRecords: nat)
    requires Numbered(items) && Derive(items, day, 0, 0, maxRecords).Some?
    ensures var s := Derive(items, day, 0, 0, maxRecords).value;
            if items == [] then s.endSequence == 0 else s.endSequence <= items[|items| - 1].entry.sequence
  {
    hide Quiet, RangesOf, Observe;
    if items != [] {
      EndIsBehind(items[..|items| - 1], day, maxRecords);
    }
  }

  /** Appended entries only extend the selection. */
  lemma {:induction false} SelectionGrows(items: seq<Item>, more: seq<Item>, day: int, maxRecords: nat)
    requires Numbered(items + more) && Derive(items + more, day, 0, 0, maxRecords).Some?
    ensures Derive(items, day, 0, 0, maxRecords).Some?
    ensures Extends(Derive(items, day, 0, 0, maxRecords).value, Derive(items + more, day, 0, 0, maxRecords).value)
  {
    hide Absorb, Extends;
    if more == [] {
      assert items + more == items;
      SelfExtends(Derive(items, day, 0, 0, maxRecords).value);
    } else {
      var all, n := items + more, |items + more| - 1;
      assert all[..n] == items + more[..|more| - 1];
      SelectionGrows(items, more[..|more| - 1], day, maxRecords);
      EndIsBehind(all[..n], day, maxRecords);
      var before := Derive(all[..n], day, 0, 0, maxRecords).value;
      AbsorbExtends(before, all[n], day);
      NoBounds(all[n]);
      ExtendsTransitive(Derive(items, day, 0, 0, maxRecords).value, before, Absorb(before, all[n], day));
    }
  }

  lemma SelfExtends(s: Selection)
    ensures Extends(s, s)
  {
  }
}
