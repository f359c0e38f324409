/**
 Nothing a queue is given disappears unaccounted for, over any interleaving of puts and drains with
 reports, snapshots and other calls on the book beside it
 (ros2_ws/src/vt_vive_tracker/vt_vive_tracker/health.py, lines 161-167 and 208-221).
 */
module SampleQueueRuns {
  import opened Prelude
  import opened TrackerRoles
  import opened TrackerHealth
  import opened SampleQueue

  /** A call on the queue, or one on the book. */
  datatype Call = Put(sample: StampedSample) | Drain | OnBook(event: Event)

  /** The queue, the book beside it, what drains returned and what was pushed out, in order. */
  datatype History = History(
    contents: seq<StampedSample>, book: Book, drained: seq<seq<StampedSample>>, lost: seq<StampedSample>)

  /** One call, as the queue's methods specify it. */
  function Apply(h: History, c: Call, capacity: nat, timeout: nat): History {
    match c
    case Put(s) =>
      var all := h.contents + [s];
      var lost := Overflow(all, capacity);
      History(LastN(all, capacity), ChargedFor(h.book, lost, timeout), h.drained, h.lost + lost)
    case Drain => h.(contents := [], drained := h.drained + [h.contents])
    case OnBook(e) => h.(book := Next(h.book, e, timeout))
  }

  function Run(book: Book, calls: seq<Call>, capacity: nat, timeout: nat): History {
    if calls == [] then History([], book, [], [])
    else Apply(Run(book, calls[..|calls| - 1], capacity, timeout), calls[|calls| - 1], capacity, timeout)
  }

  /** The samples put, in order. */
  function Puts(calls: seq<Call>): seq<StampedSample> {
    if calls == [] then []
    else
      var last := calls[|calls| - 1];
      Puts(calls[..|calls| - 1]) + if last.Put? then [last.sample] else []
  }

  /** The puts, cut at each drain: a batch for every drain, and one for what followed the last. */
  function Batches(calls: seq<Call>): (r: seq<seq<StampedSample>>)
    ensures r != []
  {
    if calls == [] then [[]]
    else
      var before := Batches(calls[..|calls| - 1]);
      match calls[|calls| - 1]
      case Put(s) => before[..|before| - 1] + [before[|before| - 1] + [s]]
      case Drain => before + [[]]
      case OnBook(_) => before
  }

  /** What each batch lost, in order. */
  function Losses(batches: seq<seq<StampedSample>>, capacity: nat): seq<StampedSample> {
    if batches == [] then []
    else Losses(batches[..|batches| - 1], capacity) + Overflow(batches[|batches| - 1], capacity)
  }

  /** What each batch delivered, in order. */
  function Delivered(batches: seq<seq<StampedSample>>, capacity: nat): seq<StampedSample> {
    if batches == [] then []
    else Delivered(batches[..|batches| - 1], capacity) + LastN(batches[|batches| - 1], capacity)
  }

  lemma LossesAppend(init: seq<seq<StampedSample>>, last: seq<StampedSample>, capacity: nat)
    ensures Losses(init + [last], capacity) == Losses(init, capacity) + Overflow(last, capacity)
  {
    assert (init + [last])[..|init|] == init;
  }

  /** The batches are the puts. */
  lemma {:induction false} BatchesAreThePuts(calls: seq<Call>)
    ensures Flatten(Batches(calls)) == Puts(calls)
  {
    if calls == [] {
      FlattenAppend<StampedSample>([], []);
    } else {
      var prefix := calls[..|calls| - 1];
      BatchesAreThePuts(prefix);
      var before := Batches(prefix);
      var init, open := before[..|before| - 1], before[|before| - 1];
      assert before == init + [open];
      FlattenAppend(init, open);
      match calls[|calls| - 1]
      case Put(s) => FlattenAppend(init, open + [s]);
      case Drain => FlattenAppend(before, []);
      case OnBook(_) =>
    }
  }

  /** One more sample: the newest stay, and what overflows is what overflowed plus what is now pushed out. */
  lemma PushOne(open: seq<StampedSample>, s: StampedSample, capacity: nat)
    requires capacity > 0
    ensures LastN(LastN(open, capacity) + [s], capacity) == LastN(open + [s], capacity)
    ensures Overflow(open + [s], capacity) == Overflow(open, capacity) + Overflow(LastN(open, capacity) + [s], capacity)
  {
  }

  /** Every drain's result is the newest part of its batch, and so is what the queue holds now. */
  ghost predicate NewestKept(h: History, batches: seq<seq<StampedSample>>, capacity: nat) {
    && |batches| == |h.drained| + 1
    && (forall i :: 0 <= i < |h.drained| ==> h.drained[i] == LastN(batches[i], capacity))
    && h.contents == LastN(batches[|h.drained|], capacity)
  }

  lemma PutKeepsNewest(h: History, h': History, init: seq<seq<StampedSample>>, open: seq<StampedSample>,
                       s: StampedSample, capacity: nat)
    requires capacity > 0 && NewestKept(h, init + [open], capacity)
    requires h'.drained == h.drained && h'.contents == LastN(h.contents + [s], capacity)
    ensures NewestKept(h', init + [open + [s]], capacity)
  {
    PushOne(open, s, capacity);
    assert (init + [open])[|init|] == open && (init + [open + [s]])[|init|] == open + [s];
    forall i | 0 <= i < |init| ensures h'.drained[i] == LastN((init + [open + [s]])[i], capacity) {
      assert (init + [open])[i] == (init + [open + [s]])[i];
    }
  }

  lemma DrainKeepsNewest(h: History, h': History, batches: seq<seq<StampedSample>>, capacity: nat)
    requires capacity > 0 && NewestKept(h, batches, capacity)
    requires h'.drained == h.drained + [h.contents] && h'.contents == []
    ensures NewestKept(h', batches + [[]], capacity)
  {
  }

  /** The last batch, still open, and those before it. */
  lemma OpenBatch(calls: seq<Call>)
    requires calls != []
    ensures var before := Batches(calls[..|calls| - 1]);
            var init, open := before[..|before| - 1], before[|before| - 1];
            && before == init + [open]
            && Batches(calls) == match calls[|calls| - 1]
                                 case Put(s) => init + [open + [s]]
                                 case Drain => before + [[]]
                                 case OnBook(_) => before
  {
  }

  /**
   Over any run, each drain returns exactly the newest `capacity` samples put since the one before it,
   and the queue holds the newest since the last.
   */
  lemma {:induction false} DrainsReturnTheNewest(book: Book, calls: seq<Call>, capacity: nat, timeout: nat)
    requires capacity > 0
    ensures NewestKept(Run(book, calls, capacity, timeout), Batches(calls), capacity)
  {
    if calls != [] {
      var prefix := calls[..|calls| - 1];
      DrainsReturnTheNewest(book, prefix, capacity, timeout);
      var h, before := Run(book, prefix, capacity, timeout), Batches(prefix);
      var h' := Run(book, calls, capacity, timeout);
      OpenBatch(calls);
      match calls[|calls| - 1]
      case Put(s) => PutKeepsNewest(h, h', before[..|before| - 1], before[|before| - 1], s, capacity);
      case Drain => DrainKeepsNewest(h, h', before, capacity);
      case OnBook(_) =>
    }
  }

  lemma LossesOfPut(init: seq<seq<StampedSample>>, open: seq<StampedSample>, batch: seq<StampedSample>,
                    lost: seq<StampedSample>, more: seq<StampedSample>, capacity: nat)
    requires lost == Losses(init + [open], capacity)
    requires Overflow(batch, capacity) == Overflow(open, capacity) + more
    ensures lost + more == Losses(init + [batch], capacity)
  {
    LossesAppend(init, open, capacity);
    LossesAppend(init, batch, capacity);
    Associate(Losses(init, capacity), Overflow(open, capacity), more);
  }

  lemma Associate<T>(a: seq<T>, b: seq<T>, c: seq<T>)
    ensures a + (b + c) == a + b + c
  {
  }

  /** What was lost is the rest of every batch: all but its newest samples, in order. */
  lemma {:induction false} OnlyTheOldestAreLost(book: Book, calls: seq<Call>, capacity: nat, timeout: nat)
    requires capacity > 0
    ensures Run(book, calls, capacity, timeout).lost == Losses(Batches(calls), capacity)
  {
    if calls == [] {
      LossesAppend([], [], capacity);
    } else {
      var prefix := calls[..|calls| - 1];
      OnlyTheOldestAreLost(book, prefix, capacity, timeout);
      DrainsReturnTheNewest(book, prefix, capacity, timeout);
      var h, before := Run(book, prefix, capacity, timeout), Batches(prefix);
      OpenBatch(calls);
      match calls[|calls| - 1]
      case Put(s) =>
        var init, open := before[..|before| - 1], before[|before| - 1];
        PushOne(open, s, capacity);
        LossesOfPut(init, open, open + [s], h.lost, Overflow(h.contents + [s], capacity), capacity);
      case Drain => LossesAppend(before, [], capacity);
      case OnBook(_) =>
    }
  }

  // ----- Conservation -----

  lemma BatchSplits(batch: seq<StampedSample>, capacity: nat)
    ensures Overflow(batch, capacity) + LastN(batch, capacity) == batch
    ensures multiset(batch) == multiset(Overflow(batch, capacity)) + multiset(LastN(batch, capacity))
  {
  }

  lemma {:induction false} BatchesSplit(batches: seq<seq<StampedSample>>, capacity: nat)
    ensures multiset(Flatten(batches)) == multiset(Losses(batches, capacity)) + multiset(Delivered(batches, capacity))
  {
    if batches != [] {
      BatchesSplit(batches[..|batches| - 1], capacity);
      BatchSplits(batches[|batches| - 1], capacity);
    }
  }

  /** What the drains returned, one after the other, followed by what the queue holds. */
  function Received(h: History): seq<StampedSample> {
    Flatten(h.drained) + h.contents
  }

  lemma {:induction false} ReceivedIsDelivered(h: History, batches: seq<seq<StampedSample>>, n: nat, capacity: nat)
    requires NewestKept(h, batches, capacity) && n <= |h.drained|
    ensures Flatten(h.drained[..n]) == Delivered(batches[..n], capacity)
  {
    if n > 0 {
      ReceivedIsDelivered(h, batches, n - 1, capacity);
      assert h.drained[..n][..n - 1] == h.drained[..n - 1] && batches[..n][..n - 1] == batches[..n - 1];
    }
  }

  /** Drained samples followed by the contents are the put samples without the lost ones, in order. */
  lemma NothingDisappears(book: Book, calls: seq<Call>, capacity: nat, timeout: nat)
    requires capacity > 0
    ensures var h := Run(book, calls, capacity, timeout);
            && Received(h) == Delivered(Batches(calls), capacity)
            && multiset(Puts(calls)) == multiset(h.lost) + multiset(Received(h))
            && |h.contents| <= capacity
  {
    var h, batches := Run(book, calls, capacity, timeout), Batches(calls);
    DrainsReturnTheNewest(book, calls, capacity, timeout);
    OnlyTheOldestAreLost(book, calls, capacity, timeout);
    BatchesAreThePuts(calls);
    BatchesSplit(batches, capacity);
    ReceivedIsDelivered(h, batches, |h.drained|, capacity);
    assert h.drained[..|h.drained|] == h.drained;
  }

  // ----- The counters of the book -----

  function CountOf(samples: seq<StampedSample>, role: Role): nat {
    if samples == [] then 0
    else CountOf(samples[..|samples| - 1], role) + if samples[|samples| - 1].role == role then 1 else 0
  }

  lemma {:induction false} CountOfSum(a: seq<StampedSample>, b: seq<StampedSample>, role: Role)
    ensures CountOf(a + b, role) == CountOf(a, role) + CountOf(b, role)
  {
    if b == [] {
      assert a + b == a;
    } else {
      CountOfSum(a, b[..|b| - 1], role);
      assert (a + b)[..|a + b| - 1] == a + b[..|b| - 1];
    }
  }

  /** Charging samples raises each role's drop counter by its share and leaves the rest of the book alone. */
  lemma {:induction false} ChargesAreCounted(b: Book, lost: seq<StampedSample>, timeout: nat, role: Role)
    ensures var h, h' := b.values.Of(role), ChargedFor(b, lost, timeout).values.Of(role);
            h' == h.(dropped := h.dropped + CountOf(lost, role))
    ensures ChargedFor(b, lost, timeout).requested == b.requested
  {
    if lost != [] {
      ChargesAreCounted(b, lost[..|lost| - 1], timeout, role);
      var s := lost[|lost| - 1];
      NamesNameRoles(RoleName(s.role));
      DropCounted(ChargedFor(b, lost[..|lost| - 1], timeout), s.role, timeout, role);
    }
  }

  lemma DropCounted(b: Book, dropped: Role, timeout: nat, role: Role)
    requires RoleNamed(RoleName(dropped)) == Some(dropped)
    ensures var h, after := b.values.Of(role), Next(b, Dropped(RoleName(dropped)), timeout);
            && after.values.Of(role) == h.(dropped := h.dropped + if role == dropped then 1 else 0)
            && after.requested == b.requested
  {
  }

  /** How many drops of the role were recorded on the book itself. */
  function RecordedDrops(calls: seq<Call>, role: Role): nat {
    if calls == [] then 0
    else
      var last := calls[|calls| - 1];
      RecordedDrops(calls[..|calls| - 1], role) + if last.OnBook? && Drops.Counts(last.event, role) then 1 else 0
  }

  /**
   Over any interleaving, a role's drop counter grows by exactly the number of its samples the queue
   lost and of its drops recorded on the book itself; no report or snapshot touches it.
   */
  lemma {:induction false} DropsAreCharged(book: Book, calls: seq<Call>, capacity: nat, timeout: nat, role: Role)
    ensures var h := Run(book, calls, capacity, timeout);
            h.book.values.Of(role).dropped
            == book.values.Of(role).dropped + CountOf(h.lost, role) + RecordedDrops(calls, role)
  {
    if calls != [] {
      var prefix := calls[..|calls| - 1];
      DropsAreCharged(book, prefix, capacity, timeout, role);
      var h := Run(book, prefix, capacity, timeout);
      match calls[|calls| - 1]
      case Put(s) =>
        var lost := Overflow(h.contents + [s], capacity);
        ChargesAreCounted(h.book, lost, timeout, role);
        CountOfSum(h.lost, lost, role);
      case Drain =>
      case OnBook(e) =>
        NextCounts(h.book, e, timeout, role, Drops);
    }
  }

  // ----- What the book sees -----

  /** Everything that happens to the book in a run: its own calls, and a drop for each sample pushed out. */
  function BookEvents(book: Book, calls: seq<Call>, capacity: nat, timeout: nat): seq<Event> {
    if calls == [] then []
    else
      var init := calls[..|calls| - 1];
      var h := Run(book, init, capacity, timeout);
      BookEvents(book, init, capacity, timeout)
      + match calls[|calls| - 1]
        case Put(s) => DropsOf(Overflow(h.contents + [s], capacity))
        case Drain => []
        case OnBook(e) => [e]
  }

  function DropsOf(lost: seq<StampedSample>): seq<Event> {
    if lost == [] then []
    else DropsOf(lost[..|lost| - 1]) + [Dropped(RoleName(lost[|lost| - 1].role))]
  }

  lemma AfterMore(start: Book, trace: seq<Event>, e: Event, timeout: nat)
    ensures After(start, trace + [e], timeout) == Next(After(start, trace, timeout), e, timeout)
  {
    assert (trace + [e])[..|trace|] == trace;
  }

  lemma {:induction false} ChargedIsAfter(start: Book, trace: seq<Event>, lost: seq<StampedSample>, timeout: nat)
    ensures After(start, trace + DropsOf(lost), timeout) == ChargedFor(After(start, trace, timeout), lost, timeout)
  {
    if lost == [] {
      assert trace + [] == trace;
    } else {
      var init, drop := DropsOf(lost[..|lost| - 1]), Dropped(RoleName(lost[|lost| - 1].role));
      ChargedIsAfter(start, trace, lost[..|lost| - 1], timeout);
      AfterMore(start, trace + init, drop, timeout);
      assert trace + (init + [drop]) == trace + init + [drop];
    }
  }

  /** So everything proved of the book alone holds of it beside the queue: it is the book of those events. */
  lemma {:induction false} BookSeesTheRun(book: Book, calls: seq<Call>, capacity: nat, timeout: nat)
    ensures Run(book, calls, capacity, timeout).book
            == After(book, BookEvents(book, calls, capacity, timeout), timeout)
  {
    if calls != [] {
      var init := calls[..|calls| - 1];
      var h, events := Run(book, init, capacity, timeout), BookEvents(book, init, capacity, timeout);
      BookSeesTheRun(book, init, capacity, timeout);
      match calls[|calls| - 1]
      case Put(s) => ChargedIsAfter(book, events, Overflow(h.contents + [s], capacity), timeout);
      case Drain => assert events + [] == events;
      case OnBook(e) => AfterMore(book, events, e, timeout);
    }
  }

  /** For one: a publication is requested exactly if some link state changed since the last was consumed. */
  lemma RequestsBesideTheQueue(ids: PerRole<string>, calls: seq<Call>, capacity: nat, timeout: nat)
    ensures Run(NewBook(ids), calls, capacity, timeout).book.requested
            <==> ChangedSinceConsumed(NewBook(ids), BookEvents(NewBook(ids), calls, capacity, timeout), timeout)
  {
    BookSeesTheRun(NewBook(ids), calls, capacity, timeout);
    RequestsAreExact(ids, BookEvents(NewBook(ids), calls, capacity, timeout), timeout);
  }
}
