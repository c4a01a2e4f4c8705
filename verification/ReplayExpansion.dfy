/** Compact ranges that reach across entries, and what they mean entry by entry (internal/archive/replay_source.go). */
module ReplayExpansion {
  import opened Protocol
  import opened Digests
  import opened DaySelection
  import opened DayCoordinates
  import opened DaySlices
  import opened Segments
  import opened Manifest
  import opened ReplaySource
  import W = Wal

  function EntryAt(o: RawObject, sequence: nat): Option<W.Entry> {
    if o.segment.start <= sequence && sequence - o.segment.start < |o.segment.entries|
    then Some(o.segment.entries[sequence - o.segment.start]) else None
  }

  /** The part of a compact range that lies in one entry, as a range of its own. */
  function Piece(r: Range, b: BatchFrame, sequence: nat, day: int): Option<Range> {
    if r.start == r.end then Some(r)
    else if b.records == [] then
      if Day(b.requestedFromMsc) != day || (sequence == r.start && r.first != 0) || (sequence == r.end && r.last != 0) then None
      else Some(Range(r.key, r.sha, r.bytes, sequence, sequence, 0, 0))
    else
      var first, last := if sequence == r.start then r.first else 0, if sequence == r.end then r.last else |b.records| - 1;
      if first > last || last >= |b.records| then None
      else Some(Range(r.key, r.sha, r.bytes, sequence, sequence, first, last))
  }

  /** The pieces of a range in its first `n` entries. */
  function Pieces(r: Range, o: RawObject, day: int, n: nat): Option<seq<Range>> {
    if n == 0 then Some([]) else
    var before, e := Pieces(r, o, day, n - 1), EntryAt(o, r.start + n - 1);
    if before.None? || e.None? then None else
    var piece := Piece(r, e.value.frame, r.start + n - 1, day);
    if piece.None? then None else Some(before.value + [piece.value])
  }

  /** All ranges, entry by entry. */
  function Expand(rs: seq<Range>, objects: seq<RawObject>, day: int): Option<seq<Range>> {
    if rs == [] then Some([]) else
    var n := |rs| - 1;
    var before, o := Expand(rs[..n], objects, day), Find(objects, rs[n].key);
    if before.None? || o.None? || rs[n].end < rs[n].start then None else
    var here := Pieces(rs[n], o.value, day, rs[n].end - rs[n].start + 1);
    if here.None? then None else Some(before.value + here.value)
  }

  lemma {:induction false} PiecesStop(r: Range, o: RawObject, day: int, n: nat, k: nat)
    requires n <= k && Pieces(r, o, day, n).None?
    ensures Pieces(r, o, day, k).None?
  {
    if n < k {
      PiecesStop(r, o, day, n, k - 1);
    }
  }

  /** The loop over the entries of one range. */
  method ExpandRange(r: Range, o: RawObject, day: int) returns (pieces: Option<seq<Range>>)
    requires r.start <= r.end
    ensures pieces == Pieces(r, o, day, r.end - r.start + 1)
  {
    var expanded := [];
    var sequence := r.start;
    while true
      invariant r.start <= sequence <= r.end && Pieces(r, o, day, sequence - r.start) == Some(expanded)
      decreases r.end - sequence
    {
      var entry := EntryAt(o, sequence);
      if entry.None? {
        PiecesStop(r, o, day, sequence - r.start + 1, r.end - r.start + 1);
        return None;
      }
      var batch := entry.value.frame;
      if r.start == r.end {
        return Some(expanded + [r]);
      }
      if |batch.records| == 0 {
        if Day(batch.requestedFromMsc) != day || (sequence == r.start && r.first != 0) || (sequence == r.end && r.last != 0) {
          PiecesStop(r, o, day, sequence - r.start + 1, r.end - r.start + 1);
          return None;
        }
        expanded := expanded + [Range(r.key, r.sha, r.bytes, sequence, sequence, 0, 0)];
        if sequence == r.end {
          break;
        }
        sequence := sequence + 1;
        continue;
      }
      var first, last := 0, |batch.records| - 1;
      if sequence == r.start {
        first := r.first;
      }
      if sequence == r.end {
        last := r.last;
      }
      if first > last || first >= |batch.records| || last >= |batch.records| {
        PiecesStop(r, o, day, sequence - r.start + 1, r.end - r.start + 1);
        return None;
      }
      expanded := expanded + [Range(r.key, r.sha, r.bytes, sequence, sequence, first, last)];
      if sequence == r.end {
        break;
      }
      sequence := sequence + 1;
    }
    return Some(expanded);
  }

  lemma {:induction false} ExpandStops(rs: seq<Range>, more: seq<Range>, objects: seq<RawObject>, day: int)
    requires Expand(rs, objects, day).None?
    ensures Expand(rs + more, objects, day).None?
  {
    hide Pieces, Find;
    if more == [] {
      assert rs + more == rs;
    } else {
      ExpandStops(rs, more[..|more| - 1], objects, day);
      assert (rs + more)[..|rs + more| - 1] == rs + more[..|more| - 1];
    }
  }

  method ExpandRanges(rs: seq<Range>, objects: seq<RawObject>, byKey: map<ObjectKey, RawObject>, day: int)
    returns (expanded: Option<seq<Range>>)
    requires forall i :: 0 <= i < |rs| ==> rs[i].start <= rs[i].end
    requires forall key :: Find(objects, key) == if key in byKey then Some(byKey[key]) else None
    ensures expanded == Expand(rs, objects, day)
  {
    hide Pieces, Find;
    var result := [];
    for i := 0 to |rs|
      invariant Expand(rs[..i], objects, day) == Some(result)
    {
      var r := rs[i];
      assert rs[..i + 1][..i] == rs[..i];
      assert rs == rs[..i + 1] + rs[i + 1..];
      if r.key !in byKey {
        ExpandStops(rs[..i + 1], rs[i + 1..], objects, day);
        return None;
      }
      var here := ExpandRange(r, byKey[r.key], day);
      if here.None? {
        ExpandStops(rs[..i + 1], rs[i + 1..], objects, day);
        return None;
      }
      result := result + here.value;
    }
    assert rs[..|rs|] == rs;
    return Some(result);
  }

  // ---- What an expansion selects ----

  /** The ordinals that a compact range selects from an entry with `count` records (a batch without records counts as ordinal zero). */
  predicate Selects(r: Range, sequence: nat, count: nat, o: nat) {
    && r.start <= sequence <= r.end
    && (if sequence > r.start then 0 else r.first) <= o
    && o <= (if sequence < r.end then (if count == 0 then 0 else count - 1) else r.last)
    && (if count == 0 then o == 0 && (sequence < r.end || r.last == 0) else o < count)
  }

  predicate SingleSelects(r: Range, sequence: nat, o: nat) {
    r.start == sequence && r.first <= o <= r.last
  }

  ghost predicate Someone(rs: seq<Range>, sequence: nat, o: nat) {
    exists k :: 0 <= k < |rs| && SingleSelects(rs[k], sequence, o)
  }

  ghost predicate SomeoneCompact(rs: seq<Range>, sequence: nat, count: nat, o: nat) {
    exists k :: 0 <= k < |rs| && Selects(rs[k], sequence, count, o)
  }

  lemma SomeoneConcat(a: seq<Range>, b: seq<Range>, sequence: nat, o: nat)
    ensures Someone(a + b, sequence, o) <==> Someone(a, sequence, o) || Someone(b, sequence, o)
  {
    hide SingleSelects;
    if Someone(a, sequence, o) {
      var k :| 0 <= k < |a| && SingleSelects(a[k], sequence, o);
      assert (a + b)[k] == a[k];
    }
    if Someone(b, sequence, o) {
      var k :| 0 <= k < |b| && SingleSelects(b[k], sequence, o);
      assert (a + b)[|a| + k] == b[k];
    }
  }

  /** Every piece fits its entry: single-entry pieces that were taken over unchanged must be checked by the caller. */
  predicate Fits(piece: Range, count: nat) {
    piece.start == piece.end && piece.first <= piece.last && (if count == 0 then piece.last == 0 else piece.last < count)
  }

  /** In entry `sequence` the pieces select what the range does. */
  lemma {:induction false} PiecesSelect(r: Range, obj: RawObject, day: int, n: nat, sequence: nat, o: nat)
    requires Pieces(r, obj, day, n).Some? && n <= r.end - r.start + 1 && r.start <= r.end
    requires EntryAt(obj, sequence).Some?
    requires var ps := Pieces(r, obj, day, n).value;
             forall k :: 0 <= k < |ps| && ps[k].start == sequence ==> Fits(ps[k], |EntryAt(obj, sequence).value.frame.records|)
    ensures var ps := Pieces(r, obj, day, n).value;
            Someone(ps, sequence, o) <==>
            sequence < r.start + n && Selects(r, sequence, |EntryAt(obj, sequence).value.frame.records|, o)
  {
    hide EntryAt;
    if n > 0 {
      var before, ps := Pieces(r, obj, day, n - 1).value, Pieces(r, obj, day, n).value;
      var piece := ps[|ps| - 1];
      assert ps == before + [piece];
      assert forall k :: 0 <= k < |before| ==> before[k] == ps[k];
      PiecesSelect(r, obj, day, n - 1, sequence, o);
      SomeoneConcat(before, [piece], sequence, o);
      OneIsSomeone(piece, sequence, o);
    }
  }

  lemma OneIsSomeone(r: Range, sequence: nat, o: nat)
    ensures Someone([r], sequence, o) <==> SingleSelects(r, sequence, o)
  {
    assert [r][0] == r;
  }
}
