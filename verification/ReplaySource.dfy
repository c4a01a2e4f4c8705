/** The reader that hands a verified day to the reducer, batch by batch (internal/archive/replay_source.go). */
module ReplaySource {
  import opened Protocol
  import opened Digests
  import opened DaySelection
  import opened DayCoordinates
  import opened DaySlices
  import opened Segments
  import opened Manifest
  import W = Wal

  // ---- Selecting ordinals ----

  /** Records `first` to `last` of one entry, or from `first` on. */
  datatype OrdinalRange = OrdinalRange(first: nat, last: nat, throughEnd: bool)

  function AppendUnique(os: seq<nat>, o: nat): seq<nat> {
    if o in os then os else os + [o]
  }

  /** Add `first` to `last` one by one, leaving out what is there already. */
  function AppendAll(os: seq<nat>, first: nat, last: nat): seq<nat>
    requires first <= last
    decreases last
  {
    AppendUnique(if first == last then os else AppendAll(os, first, last - 1), last)
  }

  function LastOf(b: BatchFrame, r: OrdinalRange): nat
    requires b.records != []
  {
    if r.throughEnd then |b.records| - 1 else r.last
  }

  /** The ordinals that the first `n` ranges select from a batch; `None` if one does not fit it. */
  function Chosen(b: BatchFrame, ranges: seq<OrdinalRange>, n: nat): Option<seq<nat>>
    requires n <= |ranges|
  {
    if n == 0 then Some([]) else
    var before, r := Chosen(b, ranges, n - 1), ranges[n - 1];
    if before.None? then None
    else if b.records == [] then (if r == OrdinalRange(0, 0, false) then Some(AppendUnique(before.value, 0)) else None)
    else if r.first > LastOf(b, r) || LastOf(b, r) >= |b.records| then None
    else Some(AppendAll(before.value, r.first, LastOf(b, r)))
  }

  lemma {:induction false} ChosenStops(b: BatchFrame, ranges: seq<OrdinalRange>, n: nat, k: nat)
    requires n <= k <= |ranges| && Chosen(b, ranges, n).None?
    ensures Chosen(b, ranges, k).None?
  {
    if n < k {
      ChosenStops(b, ranges, n, k - 1);
    }
  }

  method AppendUniqueOrdinal(os: seq<nat>, o: nat) returns (r: seq<nat>)
    ensures r == AppendUnique(os, o)
  {
    for i := 0 to |os|
      invariant o !in os[..i]
    {
      if os[i] == o {
        return os;
      }
    }
    assert os[..|os|] == os;
    return os + [o];
  }

  method SelectRecordOrdinals(b: BatchFrame, ranges: seq<OrdinalRange>) returns (ordinals: Option<seq<nat>>)
    ensures ordinals == Chosen(b, ranges, |ranges|)
  {
    hide AppendUnique;
    var chosen := [];
    for i := 0 to |ranges|
      invariant Chosen(b, ranges, i) == Some(chosen)
    {
      var r := ranges[i];
      if |b.records| == 0 {
        if !r.throughEnd && r.first == 0 && r.last == 0 {
          chosen := AppendUniqueOrdinal(chosen, 0);
          continue;
        }
        ChosenStops(b, ranges, i + 1, |ranges|);
        return None;
      }
      var last := r.last;
      if r.throughEnd {
        last := |b.records| - 1;
      }
      if r.first > last || r.first >= |b.records| || last >= |b.records| {
        ChosenStops(b, ranges, i + 1, |ranges|);
        return None;
      }
      chosen := AppendInterval(chosen, r.first, last);
    }
    return Some(chosen);
  }

  method AppendInterval(os: seq<nat>, first: nat, last: nat) returns (r: seq<nat>)
    requires first <= last
    ensures r == AppendAll(os, first, last)
  {
    hide AppendUnique;
    r := AppendUniqueOrdinal(os, first);
    var ordinal := first;
    while ordinal != last
      invariant first <= ordinal <= last && r == AppendAll(os, first, ordinal)
      decreases last - ordinal
    {
      ordinal := ordinal + 1;
      r := AppendUniqueOrdinal(r, ordinal);
    }
  }

  // ---- Which ranges belong to an entry ----

  predicate Covers(r: Range, key: ObjectKey, sequence: nat) {
    r.key == key && r.start <= sequence <= r.end
  }

  /** The part of a range within one of its entries. */
  function PartAt(r: Range, sequence: nat): OrdinalRange {
    OrdinalRange(if sequence == r.start then r.first else 0,
                 if sequence == r.end then r.last else 0,
                 sequence != r.end)
  }

  function SelectedFor(rs: seq<Range>, key: ObjectKey, sequence: nat): seq<OrdinalRange> {
    if rs == [] then [] else
    var n := |rs| - 1;
    SelectedFor(rs[..n], key, sequence) + if Covers(rs[n], key, sequence) then [PartAt(rs[n], sequence)] else []
  }

  type Index = map<(ObjectKey, nat), seq<OrdinalRange>>

  function Lookup(m: Index, key: ObjectKey, sequence: nat): seq<OrdinalRange> {
    if (key, sequence) in m then m[(key, sequence)] else []
  }

  lemma SelectedStep(rs: seq<Range>, i: nat, key: ObjectKey, sequence: nat)
    requires i < |rs|
    ensures SelectedFor(rs[..i + 1], key, sequence) ==
            SelectedFor(rs[..i], key, sequence) + if Covers(rs[i], key, sequence) then [PartAt(rs[i], sequence)] else []
  {
    assert rs[..i + 1][..i] == rs[..i];
  }

  /** The table that `Next` looks selections up in. */
  method IndexRanges(rs: seq<Range>) returns (selected: Index)
    requires forall i :: 0 <= i < |rs| ==> rs[i].start <= rs[i].end
    ensures forall key, sequence :: Lookup(selected, key, sequence) == SelectedFor(rs, key, sequence)
  {
    hide SelectedFor, Covers, PartAt;
    selected := map[];
    NothingSelected();
    for i := 0 to |rs|
      invariant forall key, sequence :: Lookup(selected, key, sequence) == SelectedFor(rs[..i], key, sequence)
    {
      ghost var before := selected;
      selected := IndexRange(selected, rs[i]);
      forall key, sequence ensures Lookup(selected, key, sequence) == SelectedFor(rs[..i + 1], key, sequence) {
        SelectedStep(rs, i, key, sequence);
        assert Lookup(before, key, sequence) == SelectedFor(rs[..i], key, sequence);
      }
    }
    assert rs[..|rs|] == rs;
  }

  lemma NothingSelected()
    ensures forall key, sequence :: SelectedFor([], key, sequence) == []
  {
  }

  method IndexRange(before: Index, r: Range) returns (selected: Index)
    requires r.start <= r.end
    ensures forall key, sequence :: Lookup(selected, key, sequence) ==
              Lookup(before, key, sequence) + if Covers(r, key, sequence) then [PartAt(r, sequence)] else []
  {
    selected := before;
    var sequence := r.start;
    while true
      invariant r.start <= sequence <= r.end
      invariant forall key: ObjectKey, q: nat :: Lookup(selected, key, q) ==
                  Lookup(before, key, q) + if Covers(r, key, q) && q < sequence then [PartAt(r, q)] else []
      decreases r.end - sequence
    {
      selected := selected[(r.key, sequence) := Lookup(selected, r.key, sequence) + [PartAt(r, sequence)]];
      if sequence == r.end {
        break;
      }
      sequence := sequence + 1;
    }
  }

  // ---- The reader ----

  datatype Delivery = Delivery(key: ObjectKey, sha: Digest, sequence: nat, frame: BatchFrame, selected: seq<nat>)

  datatype Step = Skip | Give(delivery: Delivery) | Fail

  /** What the reader does with one entry. */
  function Offer(rs: seq<Range>, it: Item): Step {
    var ranges := SelectedFor(rs, it.key, it.entry.sequence);
    if ranges == [] then Skip else
    match Chosen(it.entry.frame, ranges, |ranges|)
    case None => Fail
    case Some(os) => if os == [] then Skip else Give(Delivery(it.key, it.sha, it.entry.sequence, it.entry.frame, os))
  }

  /** Everything that is still to come from a run of entries, up to the first failure. */
  function Deliveries(rs: seq<Range>, items: seq<Item>): seq<Delivery> {
    if items == [] then [] else
    match Offer(rs, items[0])
    case Fail => []
    case Skip => Deliveries(rs, items[1..])
    case Give(d) => [d] + Deliveries(rs, items[1..])
  }

  /** No entry makes the reader fail. */
  predicate Clean(rs: seq<Range>, items: seq<Item>) {
    items == [] || (!Offer(rs, items[0]).Fail? && Clean(rs, items[1..]))
  }

  lemma Unfold(rs: seq<Range>, it: Item, rest: seq<Item>)
    ensures Deliveries(rs, [it] + rest) ==
            match Offer(rs, it) {
              case Fail => []
              case Skip => Deliveries(rs, rest)
              case Give(d) => [d] + Deliveries(rs, rest)
            }
    ensures Clean(rs, [it] + rest) <==> !Offer(rs, it).Fail? && Clean(rs, rest)
  {
    hide Offer;
    assert ([it] + rest)[1..] == rest;
  }

  datatype Result = Next(delivery: Delivery) | End | Error

  /** The entries not yet looked at: the rest of the object before `objectAt`, then the objects from there on. */
  function RestOf(objects: seq<RawObject>, objectAt: nat, entryAt: nat): seq<Item>
    requires objectAt <= |objects| && (objectAt > 0 ==> entryAt <= |objects[objectAt - 1].segment.entries|)
  {
    (if objectAt == 0 then [] else ItemsOf(objects[objectAt - 1])[entryAt..]) + Items(objects[objectAt..])
  }

  lemma RestOpens(objects: seq<RawObject>, k: nat, entryAt: nat)
    requires k < |objects| && (k > 0 ==> entryAt == |objects[k - 1].segment.entries|)
    ensures RestOf(objects, k, entryAt) == RestOf(objects, k + 1, 0)
  {
    hide Items;
    var o := objects[k];
    ItemsConcat([o], objects[k + 1..]);
    assert objects[k..] == [o] + objects[k + 1..];
    ItemsStep([], o);
    EmptyWalk(0, 0, Zero);
    assert [] + [o] == [o] && ItemsOf(o)[0..] == ItemsOf(o);
  }

  lemma RestAdvances(objects: seq<RawObject>, k: nat, j: nat)
    requires 0 < k <= |objects| && j < |objects[k - 1].segment.entries|
    ensures RestOf(objects, k, j) == [ItemsOf(objects[k - 1])[j]] + RestOf(objects, k, j + 1)
  {
    hide Items;
    var here := ItemsOf(objects[k - 1]);
    assert here[j..] == [here[j]] + here[j + 1..];
  }

  lemma RestEnds(objects: seq<RawObject>, entryAt: nat)
    requires objects != [] ==> entryAt == |objects[|objects| - 1].segment.entries|
    ensures RestOf(objects, |objects|, entryAt) == []
  {
    assert objects[|objects|..] == [];
  }

  /**
   `objects` are the chain objects as the verification read them. A file that is read again is accepted only
   with the same SHA-256, so it either gives the same segment or fails; `readFails` says which.
   */
  class Source {
    const objects: seq<RawObject>
    const selected: Index
    ghost const ranges: seq<Range>
    var objectAt: nat
    var entries: seq<W.Entry>
    var entryAt: nat

    ghost predicate Valid()
      reads this
    {
      && objectAt <= |objects| && entryAt <= |entries|
      && entries == (if objectAt == 0 then [] else objects[objectAt - 1].segment.entries)
      && (forall i :: 0 <= i < |objects| ==> objects[i].segment.entries != [])
      && forall key, sequence :: Lookup(selected, key, sequence) == SelectedFor(ranges, key, sequence)
    }

    ghost function Rest(): seq<Item>
      requires Valid()
      reads this
    {
      RestOf(objects, objectAt, entryAt)
    }

    constructor (objects: seq<RawObject>, rs: seq<Range>, selected: Index)
      requires forall i :: 0 <= i < |objects| ==> objects[i].segment.entries != []
      requires forall key, sequence :: Lookup(selected, key, sequence) == SelectedFor(rs, key, sequence)
      ensures Valid() && this.objects == objects && ranges == rs && Rest() == Items(objects)
    {
      this.objects, this.ranges, this.selected := objects, rs, selected;
      objectAt, entries, entryAt := 0, [], 0;
      new;
      assert objects[0..] == objects;
    }

    /** Give the next batch, or report the end, or fail. */
    method Next(readFails: nat -> bool) returns (result: Result)
      requires Valid()
      modifies this`objectAt, this`entries, this`entryAt
      ensures Valid() && |Rest()| <= old(|Rest()|)
      ensures result.Next? ==> |Rest()| < old(|Rest()|) && Deliveries(ranges, old(Rest())) == [result.delivery] + Deliveries(ranges, Rest())
      ensures result.End? ==> Deliveries(ranges, old(Rest())) == []
      ensures result.Error? ==> !Clean(ranges, old(Rest())) || exists i :: readFails(i)
      ensures Clean(ranges, old(Rest())) ==> Clean(ranges, Rest())
    {
      hide Offer, SelectedFor, Items, ItemsOf, Deliveries, Clean, RestOf;
      while true
        invariant Valid() && Deliveries(ranges, Rest()) == Deliveries(ranges, old(Rest()))
        invariant |Rest()| <= old(|Rest()|) && (Clean(ranges, old(Rest())) ==> Clean(ranges, Rest()))
        decreases |Rest()|
      {
        if entryAt >= |entries| {
          if objectAt >= |objects| {
            RestEnds(objects, entryAt);
            NoDeliveries(ranges);
            return End;
          }
          if readFails(objectAt) {
            return Error;
          }
          RestOpens(objects, objectAt, entryAt);
          entries, entryAt, objectAt := objects[objectAt].segment.entries, 0, objectAt + 1;
        }
        var o := objects[objectAt - 1];
        var it := Item(o.key, o.sha, o.bytes, entries[entryAt]);
        RestAdvances(objects, objectAt, entryAt);
        entryAt := entryAt + 1;
        Unfold(ranges, it, Rest());
        var step := OfferEntry(it);
        match step
        case Fail => return Error;
        case Skip =>
        case Give(d) => return Result.Next(d);
      }
    }

    /** The body of the loop in `Next`: look the selection up and cut the batch to it. */
    method OfferEntry(it: Item) returns (step: Step)
      requires Valid()
      ensures step == Offer(ranges, it)
    {
      hide SelectedFor, Chosen;
      var rs := Lookup(selected, it.key, it.entry.sequence);
      if |rs| == 0 {
        return Skip;
      }
      var ordinals := SelectRecordOrdinals(it.entry.frame, rs);
      if ordinals.None? {
        return Fail;
      }
      if |ordinals.value| == 0 {
        return Skip;
      }
      return Give(Delivery(it.key, it.sha, it.entry.sequence, it.entry.frame, ordinals.value));
    }

    /** The loop of a caller that reads until the end. */
    method Drain(readFails: nat -> bool) returns (batches: seq<Delivery>, ok: bool)
      requires Valid()
      modifies this`objectAt, this`entries, this`entryAt
      ensures ok ==> batches == Deliveries(ranges, old(Rest()))
      ensures ok || !Clean(ranges, old(Rest())) || exists i :: readFails(i)
    {
      hide Deliveries, Clean, RestOf, SelectedFor;
      batches := [];
      while true
        invariant Valid() && batches + Deliveries(ranges, Rest()) == Deliveries(ranges, old(Rest()))
        invariant Clean(ranges, old(Rest())) ==> Clean(ranges, Rest())
        decreases |Rest()|
      {
        ghost var before := Rest();
        var result := Next(readFails);
        match result
        case End => return batches, true;
        case Error => return batches, false;
        case Next(d) =>
          assert (batches + [d]) + Deliveries(ranges, Rest()) == batches + Deliveries(ranges, before);
          batches := batches + [d];
      }
    }
  }

  lemma NoDeliveries(rs: seq<Range>)
    ensures Deliveries(rs, []) == []
  {
  }
}
