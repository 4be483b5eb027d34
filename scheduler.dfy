/**
 * Slot management: a professional declares availability intervals of one
 * block each, and the listing of available schedules cuts every stored
 * interval into consecutive 40-minute blocks, dropping each block that a
 * pending or confirmed appointment of that professional touches.
 */
module Scheduler {
  import opened Records
  import opened Ordering
  import opened Store

  /** One bookable block [start, end]; the listing's JSON calls the two ends `from` and `to`. */
  datatype Block = Block(start: int, end: int)

  datatype ScheduleError =
    | NoTimes             // `times` missing or empty
    | UnparseableTime     // a time the store rejects when inserting
    | NoneAvailable       // the listing is empty
  {
    function Code(): int {
      match this
      case NoTimes => 400
      case UnparseableTime => 400
      case NoneAvailable => 404
    }
  }

  // ---------------------------------------------------------------------
  // Declaring availability

  /** The date values of the request, or None if any of them is not a date. */
  function Dates(times: seq<Option<int>>): (r: Option<seq<int>>)
    ensures r.Some? <==> forall i :: 0 <= i < |times| ==> times[i].Some?
    ensures r.Some? ==> |r.value| == |times| && forall i :: 0 <= i < |times| ==> r.value[i] == times[i].value
  {
    if times == [] then Some([])
    else if times[0].None? then None
    else match Dates(times[1..])
      case None => None
      case Some(rest) => Some([times[0].value] + rest)
  }

  /** The rows `times.map(...)` builds, numbered from firstId on as the bulk insert numbers them. */
  function Intervals(professionalId: int, firstId: int, times: seq<int>): (r: seq<Schedule>)
    decreases |times|
    ensures |r| == |times|
    ensures forall i :: 0 <= i < |r| ==>
      r[i] == Schedule(firstId + i, professionalId, times[i], times[i] + BlockMs)
  {
    if times == [] then []
    else [Schedule(firstId, professionalId, times[0], times[0] + BlockMs)] + Intervals(professionalId, firstId + 1, times[1..])
  }

  /**
   * createSchedule: rejects a missing or empty list; otherwise inserts one
   * 40-minute interval per time, in request order, all or nothing.
   */
  method CreateSchedule(db: Database, professionalId: int, times: Option<seq<Option<int>>>)
    returns (r: Result<seq<Schedule>, ScheduleError>)
    requires db.Valid()
    modifies db`schedules, db`nextScheduleId
    ensures db.Valid()
    ensures (times.None? || times.value == []) <==> r == Err(NoTimes)
    ensures r == Err(UnparseableTime) <==> times.Some? && times.value != [] && Dates(times.value).None?
    ensures r.Ok? <==> times.Some? && times.value != [] && Dates(times.value).Some?
    ensures r.Err? ==> db.schedules == old(db.schedules) && db.nextScheduleId == old(db.nextScheduleId)
    ensures r.Ok? ==>
      && times.Some? && Dates(times.value).Some?
      && r.value == Intervals(professionalId, old(db.nextScheduleId), Dates(times.value).value)
      && db.schedules == old(db.schedules) + r.value
      && db.nextScheduleId == old(db.nextScheduleId) + |r.value|
  {
    if times.None? || times.value == [] {
      return Err(NoTimes);
    }
    var dates := Dates(times.value);
    if dates.None? {
      return Err(UnparseableTime);
    }
    var rows := Intervals(professionalId, db.nextScheduleId, dates.value);
    db.schedules := db.schedules + rows;
    db.nextScheduleId := db.nextScheduleId + |rows|;
    r := Ok(rows);
  }

  /** Every interval createSchedule makes is non-empty, although the schema does not demand it. */
  lemma IntervalsAreWellFormed(professionalId: int, firstId: int, times: seq<int>)
    ensures forall s :: s in Intervals(professionalId, firstId, times) ==>
      s.availableFrom < s.availableTo && s.professionalId == professionalId
  {
  }

  // ---------------------------------------------------------------------
  // Listing the available blocks

  /** Pending and confirmed appointments hold their time; cancelled and completed ones do not. */
  predicate Active(a: Appointment) {
    a.status == Pending || a.status == Confirmed
  }

  /** The conflict query of the listing: an active appointment of the professional in [start, end]. */
  predicate Occupied(apps: seq<Appointment>, professionalId: int, start: int, end: int) {
    exists i | 0 <= i < |apps| ::
      apps[i].professionalId == professionalId && Active(apps[i]) && start <= apps[i].scheduledTime <= end
  }

  /** Each block ends no later than the next one starts: ascending and non-overlapping. */
  predicate Chronological(blocks: seq<Block>) {
    forall i, j :: 0 <= i < j < |blocks| ==> blocks[i].end <= blocks[j].start
  }

  /** The number of whole blocks in [lo, hi]. */
  function BlockCount(lo: int, hi: int): nat {
    if lo <= hi then (hi - lo) / BlockMs else 0
  }

  /**
   * The free blocks of one interval: consecutive 40-minute blocks from
   * `lo` on, without the trailing remainder, minus the occupied ones.
   */
  function FreeBlocks(apps: seq<Appointment>, professionalId: int, lo: int, hi: int): (r: seq<Block>)
    decreases hi - lo
    ensures |r| <= BlockCount(lo, hi)
    ensures forall k :: 0 <= k < |r| ==>
      lo <= r[k].start && r[k].end == r[k].start + BlockMs && r[k].end <= hi
    ensures Chronological(r)
    ensures forall k :: 0 <= k < |r| ==> !Occupied(apps, professionalId, r[k].start, r[k].end)
  {
    if lo + BlockMs <= hi then
      var rest := FreeBlocks(apps, professionalId, lo + BlockMs, hi);
      BlockCountStep(lo, hi);
      if Occupied(apps, professionalId, lo, lo + BlockMs) then rest
      else [Block(lo, lo + BlockMs)] + rest
    else
      []
  }

  lemma BlockCountStep(lo: int, hi: int)
    requires lo + BlockMs <= hi
    ensures BlockCount(lo + BlockMs, hi) == BlockCount(lo, hi) - 1
  {
  }

  lemma AlignmentStep(lo: int, s: int)
    ensures (s - lo) % BlockMs == (s - (lo + BlockMs)) % BlockMs
    ensures lo < s && (s - lo) % BlockMs == 0 ==> lo + BlockMs <= s
  {
  }

  /** The listing over a sequence of intervals: each interval's free blocks, interval by interval. */
  function Available(apps: seq<Appointment>, professionalId: int, intervals: seq<Schedule>): seq<Block> {
    if intervals == [] then []
    else FreeBlocks(apps, professionalId, intervals[0].availableFrom, intervals[0].availableTo)
         + Available(apps, professionalId, intervals[1..])
  }

  /** The WHERE of the listing's query: the rows of one professional. */
  function OfProfessional(professionalId: int): Schedule -> bool {
    (s: Schedule) => s.professionalId == professionalId
  }

  /** The ORDER BY column of the listing's query. */
  function StartOf(s: Schedule): int {
    s.availableFrom
  }

  /** Schedule.findAll({ where: { professional_id }, order: [['available_from', 'ASC']] }). */
  function ProfessionalIntervals(schedules: seq<Schedule>, professionalId: int): (r: seq<Schedule>)
    ensures forall s :: multiset(r)[s] == if s.professionalId == professionalId then multiset(schedules)[s] else 0
    ensures forall s :: s in r <==> s in schedules && s.professionalId == professionalId
    ensures forall i, j :: 0 <= i < j < |r| ==> r[i].availableFrom <= r[j].availableFrom
  {
    var mine := Filter(schedules, OfProfessional(professionalId));
    var r := SortBy(mine, StartOf);
    assert forall s :: s in r <==> s in mine by {
      forall s ensures s in r <==> s in mine {
        assert s in r <==> s in multiset(r);
      }
    }
    r
  }

  /** The inner loop of the listing: steps through one interval 40 minutes at a time. */
  method CutInterval(apps: seq<Appointment>, professionalId: int, lo: int, hi: int)
    returns (blocks: seq<Block>)
    ensures blocks == FreeBlocks(apps, professionalId, lo, hi)
  {
    blocks := [];
    var start := lo;
    while start < hi
      invariant blocks + FreeBlocks(apps, professionalId, start, hi) == FreeBlocks(apps, professionalId, lo, hi)
      decreases hi - start
    {
      var blockEnd := start + BlockMs;
      if blockEnd > hi {
        break;
      }
      ghost var rest := FreeBlocks(apps, professionalId, blockEnd, hi);
      if !Occupied(apps, professionalId, start, blockEnd) {
        assert FreeBlocks(apps, professionalId, start, hi) == [Block(start, blockEnd)] + rest;
        blocks := blocks + [Block(start, blockEnd)];
      } else {
        assert FreeBlocks(apps, professionalId, start, hi) == rest;
      }
      start := blockEnd;
    }
    assert FreeBlocks(apps, professionalId, start, hi) == [];
  }

  lemma ConcatAssociates<T>(a: seq<T>, b: seq<T>, c: seq<T>)
    ensures (a + b) + c == a + (b + c)
  {
  }

  /** The outer loop of the listing: cuts the intervals one by one, in the order given. */
  method CutIntervals(apps: seq<Appointment>, professionalId: int, rows: seq<Schedule>)
    returns (found: seq<Block>)
    ensures found == Available(apps, professionalId, rows)
  {
    found := [];
    var k := 0;
    while k < |rows|
      invariant 0 <= k <= |rows|
      invariant found + Available(apps, professionalId, rows[k..]) == Available(apps, professionalId, rows)
    {
      var blocks := CutInterval(apps, professionalId, rows[k].availableFrom, rows[k].availableTo);
      assert rows[k..][1..] == rows[k + 1..];
      assert Available(apps, professionalId, rows[k..]) == blocks + Available(apps, professionalId, rows[k + 1..]);
      ConcatAssociates(found, blocks, Available(apps, professionalId, rows[k + 1..]));
      found := found + blocks;
      k := k + 1;
    }
    assert rows[k..] == [];
  }

  /**
   * getSchedulesByProfessional: walks the professional's intervals in
   * ascending start order, cutting and filtering blocks; an empty
   * listing is a 404.
   */
  method GetSchedulesByProfessional(schedules: seq<Schedule>, apps: seq<Appointment>, professionalId: int)
    returns (r: Result<seq<Block>, ScheduleError>)
    ensures var expected := Available(apps, professionalId, ProfessionalIntervals(schedules, professionalId));
      r == if expected == [] then Err(NoneAvailable) else Ok(expected)
  {
    var rows := ProfessionalIntervals(schedules, professionalId);
    var found := CutIntervals(apps, professionalId, rows);
    if found == [] {
      r := Err(NoneAvailable);
    } else {
      r := Ok(found);
    }
  }

  // ---------------------------------------------------------------------
  // Properties of the listing

  /** A block is listed iff it is a whole, aligned block of the interval and nothing active touches it. */
  lemma {:induction false} FreeBlockIff(apps: seq<Appointment>, professionalId: int, lo: int, hi: int, s: int)
    decreases hi - lo
    ensures Block(s, s + BlockMs) in FreeBlocks(apps, professionalId, lo, hi) <==>
      && lo <= s && s + BlockMs <= hi
      && (s - lo) % BlockMs == 0
      && !Occupied(apps, professionalId, s, s + BlockMs)
  {
    if lo + BlockMs <= hi {
      FreeBlockIff(apps, professionalId, lo + BlockMs, hi, s);
      AlignmentStep(lo, s);
    } else if lo <= s && s + BlockMs <= hi {
      assert false;
    }
  }

  /** With no appointment in the way, an interval yields exactly its whole blocks, in order. */
  lemma {:induction false} UnobstructedBlocks(apps: seq<Appointment>, professionalId: int, lo: int, hi: int)
    decreases hi - lo
    requires forall i :: 0 <= i < |apps| ==> apps[i].professionalId != professionalId || !Active(apps[i])
    ensures |FreeBlocks(apps, professionalId, lo, hi)| == BlockCount(lo, hi)
    ensures forall k :: 0 <= k < BlockCount(lo, hi) ==>
      FreeBlocks(apps, professionalId, lo, hi)[k] == Block(lo + k * BlockMs, lo + (k + 1) * BlockMs)
  {
    if lo + BlockMs <= hi {
      UnobstructedBlocks(apps, professionalId, lo + BlockMs, hi);
      assert BlockCount(lo + BlockMs, hi) == BlockCount(lo, hi) - 1;
      assert !Occupied(apps, professionalId, lo, lo + BlockMs);
    }
  }

  /** An interval shorter than one block yields nothing. */
  lemma ShortIntervalYieldsNothing(apps: seq<Appointment>, professionalId: int, lo: int, hi: int)
    requires hi - lo < BlockMs
    ensures FreeBlocks(apps, professionalId, lo, hi) == []
  {
  }

  /** An 80-minute interval from t with nothing booked yields exactly [t, t+40] and [t+40, t+80]. */
  lemma EightyMinutesYieldTwoBlocks(professionalId: int, t: int)
    ensures FreeBlocks([], professionalId, t, t + 2 * BlockMs)
      == [Block(t, t + BlockMs), Block(t + BlockMs, t + 2 * BlockMs)]
  {
    UnobstructedBlocks([], professionalId, t, t + 2 * BlockMs);
  }

  /** An active appointment exactly on a block boundary removes both blocks that share it. */
  lemma BoundaryAppointmentRemovesBothBlocks(apps: seq<Appointment>, professionalId: int, lo: int, hi: int, i: nat)
    requires i < |apps| && apps[i].professionalId == professionalId && Active(apps[i])
    ensures var t := apps[i].scheduledTime;
      && Block(t - BlockMs, t) !in FreeBlocks(apps, professionalId, lo, hi)
      && Block(t, t + BlockMs) !in FreeBlocks(apps, professionalId, lo, hi)
  {
    var t := apps[i].scheduledTime;
    FreeBlockIff(apps, professionalId, lo, hi, t - BlockMs);
    FreeBlockIff(apps, professionalId, lo, hi, t);
  }

  lemma OccupiedIgnoresInactive(apps: seq<Appointment>, a: Appointment, professionalId: int, start: int, end: int)
    requires !Active(a) || a.professionalId != professionalId
    ensures Occupied(apps + [a], professionalId, start, end) == Occupied(apps, professionalId, start, end)
  {
    var both := apps + [a];
    if Occupied(both, professionalId, start, end) {
      var i :| 0 <= i < |both| && both[i].professionalId == professionalId && Active(both[i])
               && start <= both[i].scheduledTime <= end;
      assert i < |apps| && apps[i] == both[i];
    }
    if Occupied(apps, professionalId, start, end) {
      var i :| 0 <= i < |apps| && apps[i].professionalId == professionalId && Active(apps[i])
               && start <= apps[i].scheduledTime <= end;
      assert both[i] == apps[i];
    }
  }

  lemma {:induction false} FreeBlocksIgnoreInactive(apps: seq<Appointment>, a: Appointment, professionalId: int, lo: int, hi: int)
    decreases hi - lo
    requires !Active(a) || a.professionalId != professionalId
    ensures FreeBlocks(apps + [a], professionalId, lo, hi) == FreeBlocks(apps, professionalId, lo, hi)
  {
    if lo + BlockMs <= hi {
      OccupiedIgnoresInactive(apps, a, professionalId, lo, lo + BlockMs);
      FreeBlocksIgnoreInactive(apps, a, professionalId, lo + BlockMs, hi);
    }
  }

  /** Cancelled and completed appointments, and other professionals' ones, never change the listing. */
  lemma {:induction false} AvailableIgnoresInactive(apps: seq<Appointment>, a: Appointment, professionalId: int, intervals: seq<Schedule>)
    requires !Active(a) || a.professionalId != professionalId
    ensures Available(apps + [a], professionalId, intervals) == Available(apps, professionalId, intervals)
  {
    if intervals != [] {
      FreeBlocksIgnoreInactive(apps, a, professionalId, intervals[0].availableFrom, intervals[0].availableTo);
      AvailableIgnoresInactive(apps, a, professionalId, intervals[1..]);
    }
  }

  lemma {:induction false} AvailableAppend(apps: seq<Appointment>, professionalId: int, xs: seq<Schedule>, ys: seq<Schedule>)
    ensures Available(apps, professionalId, xs + ys)
      == Available(apps, professionalId, xs) + Available(apps, professionalId, ys)
  {
    if xs != [] {
      assert (xs + ys)[1..] == xs[1..] + ys;
      AvailableAppend(apps, professionalId, xs[1..], ys);
    } else {
      assert xs + ys == ys;
    }
  }

  /** Every listed block comes from one of the intervals, and every free block of an interval is listed. */
  lemma {:induction false} AvailableIsUnionOfIntervals(apps: seq<Appointment>, professionalId: int, intervals: seq<Schedule>, b: Block)
    ensures b in Available(apps, professionalId, intervals) <==>
      exists k :: 0 <= k < |intervals| &&
        b in FreeBlocks(apps, professionalId, intervals[k].availableFrom, intervals[k].availableTo)
  {
    if intervals != [] {
      AvailableIsUnionOfIntervals(apps, professionalId, intervals[1..], b);
      if b in Available(apps, professionalId, intervals[1..]) {
        var k :| 0 <= k < |intervals[1..]| &&
          b in FreeBlocks(apps, professionalId, intervals[1..][k].availableFrom, intervals[1..][k].availableTo);
        assert intervals[k + 1] == intervals[1..][k];
      }
      if exists k :: 0 <= k < |intervals| &&
           b in FreeBlocks(apps, professionalId, intervals[k].availableFrom, intervals[k].availableTo) {
        var k :| 0 <= k < |intervals| &&
          b in FreeBlocks(apps, professionalId, intervals[k].availableFrom, intervals[k].availableTo);
        if k > 0 {
          assert intervals[1..][k - 1] == intervals[k];
        }
      }
    }
  }

  /** Listed blocks start no earlier than the earliest interval start among those listed from. */
  lemma {:induction false} AvailableStartsAfter(apps: seq<Appointment>, professionalId: int, intervals: seq<Schedule>, bound: int)
    requires forall k :: 0 <= k < |intervals| ==> bound <= intervals[k].availableFrom
    ensures forall b :: b in Available(apps, professionalId, intervals) ==> bound <= b.start
  {
    forall b | b in Available(apps, professionalId, intervals) ensures bound <= b.start {
      AvailableIsUnionOfIntervals(apps, professionalId, intervals, b);
    }
  }

  /**
   * When the intervals follow one another without overlapping, the whole
   * listing is chronological and its blocks do not overlap.
   */
  lemma {:induction false} DisjointIntervalsListChronologically(apps: seq<Appointment>, professionalId: int, intervals: seq<Schedule>)
    requires forall i, j :: 0 <= i < j < |intervals| ==> intervals[i].availableTo <= intervals[j].availableFrom
    ensures Chronological(Available(apps, professionalId, intervals))
  {
    if intervals != [] {
      var head := FreeBlocks(apps, professionalId, intervals[0].availableFrom, intervals[0].availableTo);
      var tail := Available(apps, professionalId, intervals[1..]);
      DisjointIntervalsListChronologically(apps, professionalId, intervals[1..]);
      assert Chronological(tail);
      forall k | 0 <= k < |intervals[1..]| ensures intervals[0].availableTo <= intervals[1..][k].availableFrom {
        assert intervals[1..][k] == intervals[k + 1];
      }
      AvailableStartsAfter(apps, professionalId, intervals[1..], intervals[0].availableTo);
      var bound := intervals[0].availableTo;
      assert forall x :: 0 <= x < |head| ==> head[x].end <= bound;
      assert forall y :: 0 <= y < |tail| ==> bound <= tail[y].start by {
        forall y | 0 <= y < |tail| ensures bound <= tail[y].start {
          assert tail[y] in tail;
        }
      }
      var r := head + tail;
      forall i, j | 0 <= i < j < |r| ensures r[i].end <= r[j].start {
        if j < |head| {
          assert r[i] == head[i] && r[j] == head[j];
          assert head[i].end <= head[j].start;
        } else if i < |head| {
          assert r[i] == head[i] && r[j] == tail[j - |head|];
          assert head[i].end <= bound <= tail[j - |head|].start;
        } else {
          assert r[i] == tail[i - |head|] && r[j] == tail[j - |head|];
          assert tail[i - |head|].end <= tail[j - |head|].start;
        }
      }
    }
  }

  /** Overlapping intervals are not merged: the same interval stored twice lists its block twice. */
  lemma RepeatedIntervalRepeatsBlocks(professionalId: int, t: int)
    ensures var iv := Schedule(1, professionalId, t, t + BlockMs);
      Available([], professionalId, [iv, Schedule(2, professionalId, t, t + BlockMs)])
        == [Block(t, t + BlockMs), Block(t, t + BlockMs)]
  {
    var iv := Schedule(1, professionalId, t, t + BlockMs);
    var iv' := Schedule(2, professionalId, t, t + BlockMs);
    UnobstructedBlocks([], professionalId, t, t + BlockMs);
    assert [iv, iv'][1..] == [iv'];
    assert Available([], professionalId, [iv']) == [Block(t, t + BlockMs)] + Available([], professionalId, []);
  }

  /**
   * The intervals createSchedule makes, taken in the order of the given
   * sequence, each list exactly their one block while nothing active
   * touches them.
   */
  lemma {:induction false} DeclaredIntervalsListTheirBlocks(apps: seq<Appointment>, professionalId: int, firstId: int, times: seq<int>)
    decreases |times|
    requires forall i :: 0 <= i < |times| ==> !Occupied(apps, professionalId, times[i], times[i] + BlockMs)
    ensures Available(apps, professionalId, Intervals(professionalId, firstId, times))
      == seq(|times|, i requires 0 <= i < |times| => Block(times[i], times[i] + BlockMs))
  {
    if times != [] {
      DeclaredIntervalsListTheirBlocks(apps, professionalId, firstId + 1, times[1..]);
      var ivs := Intervals(professionalId, firstId, times);
      assert ivs[1..] == Intervals(professionalId, firstId + 1, times[1..]);
      assert FreeBlocks(apps, professionalId, times[0], times[0] + BlockMs) == [Block(times[0], times[0] + BlockMs)];
    }
  }

  /**
   * A professional's first declaration, with the times in ascending order:
   * the handler's listing is then one block per time, in request order,
   * while nothing active touches them.
   */
  lemma CreatedIntervalsAreListed(apps: seq<Appointment>, schedules: seq<Schedule>, professionalId: int, firstId: int, times: seq<int>)
    requires forall s :: s in schedules ==> s.professionalId != professionalId
    requires forall i, j :: 0 <= i < j < |times| ==> times[i] <= times[j]
    requires forall i :: 0 <= i < |times| ==> !Occupied(apps, professionalId, times[i], times[i] + BlockMs)
    ensures Available(apps, professionalId, ProfessionalIntervals(schedules + Intervals(professionalId, firstId, times), professionalId))
      == seq(|times|, i requires 0 <= i < |times| => Block(times[i], times[i] + BlockMs))
  {
    var ivs := Intervals(professionalId, firstId, times);
    var mine := OfProfessional(professionalId);
    FilterAppend(schedules, ivs, mine);
    FilterNone(schedules, mine);
    FilterAll(ivs, mine);
    assert Filter(schedules + ivs, mine) == ivs;
    SortByOfSorted(ivs, StartOf);
    assert ProfessionalIntervals(schedules + ivs, professionalId) == ivs;
    DeclaredIntervalsListTheirBlocks(apps, professionalId, firstId, times);
  }

  /** ORDER BY available_from puts two rows of the professional earliest first. */
  lemma ProfessionalIntervalsOfTwo(a: Schedule, b: Schedule, professionalId: int)
    requires a.professionalId == professionalId && b.professionalId == professionalId
    requires b.availableFrom < a.availableFrom
    ensures ProfessionalIntervals([a, b], professionalId) == [b, a]
  {
    var r := ProfessionalIntervals([a, b], professionalId);
    assert |r| == 2 by {
      assert |multiset(r)| == |multiset([a, b])|;
    }
    assert r == [r[0], r[1]];
    assert multiset(r)[a] == 1 && multiset(r)[b] == 1;
    assert r[0].availableFrom <= r[1].availableFrom;
    assert r == [b, a];
  }

  /** Two adjacent empty intervals list their two blocks, earliest first. */
  lemma AdjacentIntervalsList(professionalId: int, t: int)
    ensures Available([], professionalId,
        [Schedule(2, professionalId, t, t + BlockMs), Schedule(1, professionalId, t + BlockMs, t + 2 * BlockMs)])
      == [Block(t, t + BlockMs), Block(t + BlockMs, t + 2 * BlockMs)]
  {
    var late := Schedule(1, professionalId, t + BlockMs, t + 2 * BlockMs);
    var early := Schedule(2, professionalId, t, t + BlockMs);
    UnobstructedBlocks([], professionalId, t, t + BlockMs);
    UnobstructedBlocks([], professionalId, t + BlockMs, t + 2 * BlockMs);
    assert [early, late][1..] == [late];
    assert Available([], professionalId, [late]) == [Block(t + BlockMs, t + 2 * BlockMs)] + Available([], professionalId, []);
  }

  /** The listing re-sorts by start: times declared latest first are listed earliest first. */
  lemma ListingReSortsDeclaredIntervals(professionalId: int, t: int)
    ensures Available([], professionalId, ProfessionalIntervals(Intervals(professionalId, 1, [t + BlockMs, t]), professionalId))
      == [Block(t, t + BlockMs), Block(t + BlockMs, t + 2 * BlockMs)]
  {
    var late := Schedule(1, professionalId, t + BlockMs, t + 2 * BlockMs);
    var early := Schedule(2, professionalId, t, t + BlockMs);
    assert Intervals(professionalId, 1, [t + BlockMs, t]) == [late, early];
    ProfessionalIntervalsOfTwo(late, early, professionalId);
    AdjacentIntervalsList(professionalId, t);
  }
}
