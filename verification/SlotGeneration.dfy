/** Which slots exist: the scheduled instants of a window, and what a run of ticks generates. */
module SlotGeneration {
  import opened Options
  import opened Hours
  import opened SlotTable

  datatype Schedule = Schedule(interval: string, minuteOffset: int)

  predicate Valid(s: Schedule) {
    s.interval == "hourly" && 0 <= s.minuteOffset <= 59
  }

  predicate At(minuteOffset: int, t: int) {
    t % 3600 == minuteOffset * 60
  }

  /** In order, exactly the instants at the offset in [from, until). */
  method SlotTimes(s: Schedule, from: int, until: int) returns (out: seq<int>)
    ensures forall t :: t in out <==>
              && s.interval == "hourly" && 0 <= s.minuteOffset <= 59
              && from <= t < until && t % 3600 == s.minuteOffset * 60
    ensures forall i :: 0 <= i < |out| - 1 ==> out[i + 1] == out[i] + 3600
  {
    out := [];
    if !Valid(s) || until <= from {
      return;
    }
    var cursor := Hour(from) + s.minuteOffset * 60;
    if cursor < from {
      cursor := cursor + 3600;
    }
    FirstInstant(s.minuteOffset, from, cursor);
    while cursor < until
      invariant At(s.minuteOffset, cursor) && from <= cursor < until + 3600
      invariant forall t :: t in out <==> from <= t < cursor && t < until && At(s.minuteOffset, t)
      invariant forall i :: 0 <= i < |out| - 1 ==> out[i + 1] == out[i] + 3600
      invariant out != [] ==> out[|out| - 1] == cursor - 3600
    {
      NextInstant(s.minuteOffset, cursor);
      out := out + [cursor];
      cursor := cursor + 3600;
    }
  }

  lemma FirstInstant(minuteOffset: int, from: int, cursor: int)
    requires 0 <= minuteOffset <= 59
    requires var c := Hour(from) + minuteOffset * 60; cursor == if c < from then c + 3600 else c
    ensures At(minuteOffset, cursor) && from <= cursor < from + 3600
    ensures forall t :: from <= t < cursor ==> !At(minuteOffset, t)
  {
  }

  lemma NextInstant(minuteOffset: int, cursor: int)
    requires At(minuteOffset, cursor)
    ensures At(minuteOffset, cursor + 3600)
    ensures forall t :: cursor < t < cursor + 3600 ==> !At(minuteOffset, t)
  {
  }

  function OffsetsOrDefault(offsets: seq<int>): seq<int> {
    if offsets == [] then [10, 40] else offsets
  }

  predicate InHour(offsets: seq<int>, h: int, t: int) {
    exists k :: 0 <= k < |offsets| && t == h + offsets[k] * 60
  }

  predicate Aligned(h: int) {
    h % 3600 == 0
  }

  lemma AlignedGap(g: int, h: int)
    requires Aligned(g) && Aligned(h) && g < h
    ensures g + 3600 <= h
  {
  }

  lemma AlignedNext(h: int)
    requires Aligned(h)
    ensures Aligned(h + 3600)
  {
  }

  /** An instant at some offset past some hour mark of [first, upTo). */
  ghost predicate InSomeHour(first: int, upTo: int, offsets: seq<int>, t: int) {
    exists h :: AtMark(first, upTo, offsets, t, h)
  }

  ghost predicate AtMark(first: int, upTo: int, offsets: seq<int>, t: int, h: int) {
    first <= h < upTo && Aligned(h) && InHour(offsets, h, t)
  }

  ghost predicate AnalysisInstant(from: int, until: int, offsets: seq<int>, t: int) {
    from <= t < until && InSomeHour(Hour(from), until, OffsetsOrDefault(offsets), t)
  }

  lemma OneMoreHour(first: int, h: int, offsets: seq<int>, t: int)
    requires first <= h && Aligned(h)
    ensures InSomeHour(first, h + 3600, offsets, t) <==> InSomeHour(first, h, offsets, t) || InHour(offsets, h, t)
  {
    if InSomeHour(first, h + 3600, offsets, t) {
      var g :| AtMark(first, h + 3600, offsets, t, g);
      if g > h {
        AlignedGap(h, g);
      } else if g < h {
        assert AtMark(first, h, offsets, t, g);
      }
    }
    if InSomeHour(first, h, offsets, t) {
      var g :| AtMark(first, h, offsets, t, g);
      assert AtMark(first, h + 3600, offsets, t, g);
    }
    if InHour(offsets, h, t) {
      assert AtMark(first, h + 3600, offsets, t, h);
    }
  }

  /** The scan overshoots the window by less than an hour, so it passes no further mark. */
  lemma LastHour(first: int, h: int, until: int, offsets: seq<int>, t: int)
    requires Aligned(h) && until <= h && (h == first || h < until + 3600)
    ensures InSomeHour(first, h, offsets, t) <==> InSomeHour(first, until, offsets, t)
  {
    if InSomeHour(first, h, offsets, t) {
      var g :| AtMark(first, h, offsets, t, g);
      AlignedGap(g, h);
      assert AtMark(first, until, offsets, t, g);
    }
    if InSomeHour(first, until, offsets, t) {
      var g :| AtMark(first, until, offsets, t, g);
      assert AtMark(first, h, offsets, t, g);
    }
  }

  lemma HourIsAligned(t: int)
    ensures Aligned(Hour(t)) && Hour(t) <= t < Hour(t) + 3600
  {
  }

  method HourTimes(from: int, until: int, offsets: seq<int>, h: int) returns (out: seq<int>)
    ensures forall t :: t in out <==> from <= t < until && InHour(offsets, h, t)
  {
    out := [];
    var i := 0;
    while i < |offsets|
      invariant 0 <= i <= |offsets|
      invariant forall t :: t in out <==> from <= t < until && InHour(offsets[..i], h, t)
    {
      var t := h + offsets[i] * 60;
      if from <= t < until {
        out := out + [t];
      }
      forall t {
        OneMoreOffset(offsets, i, h, t);
      }
      i := i + 1;
    }
    assert offsets[..i] == offsets;
  }

  lemma OneMoreOffset(offsets: seq<int>, i: nat, h: int, t: int)
    requires i < |offsets|
    ensures InHour(offsets[..i + 1], h, t) <==> InHour(offsets[..i], h, t) || t == h + offsets[i] * 60
  {
    var more, fewer := offsets[..i + 1], offsets[..i];
    assert more[i] == offsets[i] && fewer == more[..i];
    if InHour(fewer, h, t) {
      var k :| 0 <= k < i && t == h + fewer[k] * 60;
      assert t == h + more[k] * 60;
    }
    if InHour(more, h, t) && t != h + offsets[i] * 60 {
      var k :| 0 <= k < i + 1 && t == h + more[k] * 60;
      assert t == h + fewer[k] * 60;
    }
  }

  /** The analysis instants of the window, for whatever offsets are configured. */
  method AnalysisSlotTimes(from: int, until: int, offsets: seq<int>) returns (out: seq<int>)
    ensures forall t :: t in out <==> AnalysisInstant(from, until, offsets, t)
  {
    var offs, first := OffsetsOrDefault(offsets), Hour(from);
    HourIsAligned(from);
    out := [];
    var h := first;
    while h < until
      invariant first <= h && Aligned(h) && (h == first || h < until + 3600)
      invariant forall t :: t in out <==> from <= t < until && InSomeHour(first, h, offs, t)
      decreases until - h
    {
      var more := HourTimes(from, until, offs, h);
      forall t {
        OneMoreHour(first, h, offs, t);
      }
      AlignedNext(h);
      out := out + more;
      h := h + 3600;
    }
    forall t {
      LastHour(first, h, until, offs, t);
    }
  }

  // ---- One tick ------------------------------------------------------------------------

  datatype ConfigEntry = ConfigEntry(id: nat, schedule: Schedule)

  /** Active configurations and locations, and the scheduler's own job owners (0 disables one). */
  datatype World = World(
    configs: seq<ConfigEntry>, locations: seq<nat>,
    observationConfig: nat, observationOffset: int, analysisConfig: nat, analysisOffsets: seq<int>)

  function ObservationSchedule(w: World): Schedule {
    Schedule("hourly", w.observationOffset)
  }

  ghost predicate DueKey(w: World, from: int, until: int, key: SlotKey) {
    w.locations != [] &&
    match key.job
    case ForecastCollection =>
      key.location in w.locations && exists i :: 0 <= i < |w.configs| && ForConfig(w.configs[i], from, until, key)
    case ObservationCollection =>
      && w.observationConfig != 0 && key.location in w.locations
      && ForConfig(ConfigEntry(w.observationConfig, ObservationSchedule(w)), from, until, key)
    case AnalysisBatch =>
      && w.analysisConfig != 0 && key.config == w.analysisConfig && key.location == 0
      && AnalysisInstant(from, until, w.analysisOffsets, key.slotTime)
  }

  ghost predicate ForConfig(c: ConfigEntry, from: int, until: int, key: SlotKey) {
    key.config == c.id && Valid(c.schedule) && from <= key.slotTime < until && At(c.schedule.minuteOffset, key.slotTime)
  }

  method KeysFor(config: nat, job: Job, times: seq<int>, locations: seq<nat>) returns (keys: seq<SlotKey>)
    ensures forall k :: k in keys <==> k.config == config && k.job == job && k.slotTime in times && k.location in locations
  {
    keys := [];
    var i := 0;
    while i < |times|
      invariant 0 <= i <= |times|
      invariant forall k :: k in keys <==>
                  k.config == config && k.job == job && k.slotTime in times[..i] && k.location in locations
    {
      var j := 0;
      while j < |locations|
        invariant 0 <= j <= |locations|
        invariant forall k :: k in keys <==>
                    && k.config == config && k.job == job
                    && (|| (k.slotTime in times[..i] && k.location in locations)
                        || (k.slotTime == times[i] && k.location in locations[..j]))
      {
        keys := keys + [SlotKey(config, job, locations[j], times[i])];
        j := j + 1;
      }
      i := i + 1;
    }
  }

  method ForecastKeys(w: World, from: int, until: int) returns (keys: seq<SlotKey>)
    ensures forall k :: k in keys <==>
              k.job == ForecastCollection && k.location in w.locations &&
              exists j :: 0 <= j < |w.configs| && ForConfig(w.configs[j], from, until, k)
  {
    keys := [];
    var i := 0;
    while i < |w.configs|
      invariant 0 <= i <= |w.configs|
      invariant forall k :: k in keys <==>
                  k.job == ForecastCollection && k.location in w.locations &&
                  exists j :: 0 <= j < i && ForConfig(w.configs[j], from, until, k)
    {
      var c := w.configs[i];
      var times := SlotTimes(c.schedule, from, until);
      var more := KeysFor(c.id, ForecastCollection, times, w.locations);
      keys := keys + more;
      i := i + 1;
    }
  }

  /** Every key one tick tries to generate. */
  method TickKeys(w: World, now: int) returns (keys: seq<SlotKey>)
    ensures forall k :: k in keys <==> DueKey(w, Hour(now) - 3600, Hour(now) + 3600, k)
  {
    keys := [];
    if |w.locations| == 0 {
      return;
    }
    var from, until := Hour(now) - 3600, Hour(now) + 3600;
    keys := ForecastKeys(w, from, until);
    if w.observationConfig != 0 {
      var times := SlotTimes(ObservationSchedule(w), from, until);
      var more := KeysFor(w.observationConfig, ObservationCollection, times, w.locations);
      keys := keys + more;
    }
    if w.analysisConfig != 0 {
      var times := AnalysisSlotTimes(from, until, w.analysisOffsets);
      var more := KeysFor(w.analysisConfig, AnalysisBatch, times, [0]);
      keys := keys + more;
    }
  }

  // ---- The table after a tick ----------------------------------------------------------

  ghost predicate KeepsRows(a: Slots, b: Slots) {
    forall id :: id in a ==> id in b && b[id] == a[id]
  }

  /** One tick adds a row for exactly the due keys that have none; other rows are untouched. */
  method GenerateSlots(repo: SlotRepository, w: World, now: int, nextId: nat) returns (nextId': nat)
    requires UniqueKeys(repo.slots) && forall id :: id in repo.slots ==> id < nextId
    modifies repo
    ensures UniqueKeys(repo.slots) && KeepsRows(old(repo.slots), repo.slots)
    ensures forall key :: HasKey(repo.slots, key) <==>
              HasKey(old(repo.slots), key) || DueKey(w, Hour(now) - 3600, Hour(now) + 3600, key)
    ensures forall id :: id in repo.slots ==> id < nextId'
  {
    var keys := TickKeys(w, now);
    nextId' := nextId;
    var i := 0;
    while i < |keys|
      invariant 0 <= i <= |keys|
      invariant UniqueKeys(repo.slots) && KeepsRows(old(repo.slots), repo.slots)
      invariant forall id :: id in repo.slots ==> id < nextId'
      invariant forall key :: HasKey(repo.slots, key) <==> HasKey(old(repo.slots), key) || key in keys[..i]
    {
      ghost var before := repo.slots;
      repo.Generate(nextId', keys[i]);
      forall key {
        GeneratedKey(before, nextId', keys[i], key);
      }
      nextId' := nextId' + 1;
      i := i + 1;
    }
    assert keys[..i] == keys;
  }

  lemma GeneratedKey(slots: Slots, id: SlotId, key: SlotKey, other: SlotKey)
    requires id !in slots
    ensures HasKey(GenerateSlot(slots, id, key), other) <==> HasKey(slots, other) || other == key
  {
    var slots' := GenerateSlot(slots, id, key);
    if HasKey(slots, other) {
      var a :| a in slots && slots[a].key == other;
      assert slots'[a].key == other;
    } else if other == key {
      assert slots'[id].key == key;
    }
  }

  // ---- Runs of ticks -------------------------------------------------------------------

  /** A key that belongs to the schedule, whenever it may be generated. */
  ghost predicate ScheduledKey(w: World, key: SlotKey) {
    DueKey(w, Hour(key.slotTime), Hour(key.slotTime) + 3600, key)
  }

  ghost predicate OffsetsOk(w: World) {
    forall off :: off in OffsetsOrDefault(w.analysisOffsets) ==> 0 <= off <= 59
  }

  /** A key of a stream with an instant of its own in every hour: analysis offsets beyond the hour
      have none. */
  ghost predicate Hourly(w: World, key: SlotKey) {
    key.job.AnalysisBatch? ==> OffsetsOk(w)
  }

  /** On hour-aligned windows, due means scheduled and inside the window. */
  lemma DueMeansScheduled(w: World, from: int, until: int, key: SlotKey)
    requires Hourly(w, key) && Aligned(from) && Aligned(until)
    ensures DueKey(w, from, until, key) <==> ScheduledKey(w, key) && from <= key.slotTime < until
  {
    var h := Hour(key.slotTime);
    var offs := OffsetsOrDefault(w.analysisOffsets);
    HourIsAligned(key.slotTime);
    if key.job.AnalysisBatch? {
      AlignedNext(h);
      AnalysisHour(offs, h, h + 3600, key.slotTime);
      if from <= key.slotTime < until {
        AnalysisHour(offs, from, until, key.slotTime);
      }
    } else if key.job.ForecastCollection? {
      assert forall i :: 0 <= i < |w.configs| ==>
        (ForConfig(w.configs[i], from, until, key) <==>
          ForConfig(w.configs[i], h, h + 3600, key) && from <= key.slotTime < until);
    }
  }

  lemma AnalysisHour(offs: seq<int>, from: int, until: int, t: int)
    requires forall off :: off in offs ==> 0 <= off <= 59
    requires Aligned(from) && Aligned(until) && from <= t < until
    ensures InSomeHour(Hour(from), until, offs, t) <==> InHour(offs, Hour(t), t)
  {
    HoursInside(from, until, t);
    if InSomeHour(from, until, offs, t) {
      var h :| AtMark(from, until, offs, t, h);
      var k :| 0 <= k < |offs| && t == h + offs[k] * 60;
      assert offs[k] in offs;
      HourOf(h, offs[k], t);
    } else {
      assert !AtMark(from, until, offs, t, Hour(t));
    }
  }

  lemma HourOf(h: int, off: int, t: int)
    requires Aligned(h) && 0 <= off <= 59 && t == h + off * 60
    ensures Hour(t) == h
  {
  }

  lemma HoursInside(from: int, until: int, t: int)
    requires Aligned(from) && Aligned(until) && from <= t < until
    ensures Hour(from) == from <= Hour(t) < until && Aligned(Hour(t))
  {
  }

  lemma TickDueMeans(w: World, now: int, key: SlotKey)
    requires Hourly(w, key)
    ensures TickDue(w, now, key) <==> ScheduledKey(w, key) && Hour(now) - 3600 <= key.slotTime < Hour(now) + 3600
  {
    DueMeansScheduled(w, Hour(now) - 3600, Hour(now) + 3600, key);
  }

  ghost predicate TickTimes(ticks: seq<int>) {
    ticks != [] && forall k :: 0 <= k < |ticks| - 1 ==> ticks[k] <= ticks[k + 1]
  }

  /** Some tick of the run generated the key. */
  ghost predicate GeneratedBy(w: World, ticks: seq<int>, key: SlotKey) {
    exists k :: 0 <= k < |ticks| && TickDue(w, ticks[k], key)
  }

  ghost predicate TickDue(w: World, now: int, key: SlotKey) {
    DueKey(w, Hour(now) - 3600, Hour(now) + 3600, key)
  }

  /** Every instant of an hourly stream between the first and the last window has been generated. */
  ghost predicate NothingMissed(w: World, ticks: seq<int>)
    requires ticks != []
  {
    forall key ::
      Hourly(w, key) && ScheduledKey(w, key) &&
      Hour(ticks[0]) - 3600 <= key.slotTime < Hour(ticks[|ticks| - 1]) + 3600 ==>
        GeneratedBy(w, ticks, key)
  }

  ghost predicate TicksCloseEnough(ticks: seq<int>) {
    forall k :: 0 <= k < |ticks| - 1 ==> Hour(ticks[k + 1]) - Hour(ticks[k]) <= 7200
  }

  lemma {:induction false} CloseTicksCover(w: World, ticks: seq<int>, key: SlotKey)
    requires Hourly(w, key) && TickTimes(ticks) && TicksCloseEnough(ticks) && ScheduledKey(w, key)
    requires Hour(ticks[0]) - 3600 <= key.slotTime < Hour(ticks[|ticks| - 1]) + 3600
    ensures GeneratedBy(w, ticks, key)
    decreases |ticks|
  {
    var n := |ticks| - 1;
    if key.slotTime >= Hour(ticks[n]) - 3600 {
      TickDueMeans(w, ticks[n], key);
    } else {
      assert ticks[n - 1] <= ticks[n - 1 + 1] && Hour(ticks[n - 1 + 1]) - Hour(ticks[n - 1]) <= 7200;
      CloseTicksCover(w, ticks[..n], key);
      var k :| 0 <= k < n && TickDue(w, ticks[..n][k], key);
      assert TickDue(w, ticks[k], key);
    }
  }

  /** Some configured stream has an instant in every hour. */
  ghost predicate HasHourlyStream(w: World) {
    && w.locations != []
    && (|| (exists i :: 0 <= i < |w.configs| && Valid(w.configs[i].schedule))
        || (w.observationConfig != 0 && Valid(ObservationSchedule(w)))
        || (w.analysisConfig != 0 && OffsetsOk(w)))
  }

  lemma InstantInEveryHour(w: World, h: int) returns (key: SlotKey)
    requires HasHourlyStream(w) && Aligned(h)
    ensures Hourly(w, key) && ScheduledKey(w, key) && h <= key.slotTime < h + 3600
  {
    if i :| 0 <= i < |w.configs| && Valid(w.configs[i].schedule) {
      var c := w.configs[i];
      key := SlotKey(c.id, ForecastCollection, w.locations[0], h + c.schedule.minuteOffset * 60);
      HourOf(h, c.schedule.minuteOffset, key.slotTime);
      assert ForConfig(w.configs[i], h, h + 3600, key);
    } else if w.observationConfig != 0 && Valid(ObservationSchedule(w)) {
      key := SlotKey(w.observationConfig, ObservationCollection, w.locations[0], h + w.observationOffset * 60);
      HourOf(h, w.observationOffset, key.slotTime);
    } else {
      var offs := OffsetsOrDefault(w.analysisOffsets);
      assert offs[0] in offs;
      key := SlotKey(w.analysisConfig, AnalysisBatch, 0, h + offs[0] * 60);
      HourOf(h, offs[0], key.slotTime);
      AlignedNext(h);
      AnalysisHour(offs, h, h + 3600, key.slotTime);
    }
  }

  /** Without such a stream there is nothing to miss. */
  lemma NothingScheduled(w: World, key: SlotKey)
    requires Hourly(w, key) && ScheduledKey(w, key)
    ensures HasHourlyStream(w)
  {
  }

  lemma {:induction false} TicksAreSorted(ticks: seq<int>, i: nat, j: nat)
    requires TickTimes(ticks) && i <= j < |ticks|
    ensures Hour(ticks[i]) <= Hour(ticks[j])
    decreases j
  {
    if i < j {
      TicksAreSorted(ticks, i, j - 1);
      assert ticks[j - 1] <= ticks[j - 1 + 1];
    }
  }

  /** No tick reaches the hour after an early mark, when the next mark is more than two hours on. */
  lemma TickMissesGap(w: World, ticks: seq<int>, k: nat, m: nat, key: SlotKey)
    requires Hourly(w, key) && TickTimes(ticks) && k < |ticks| - 1 && m < |ticks|
    requires Hour(ticks[k]) + 3600 <= key.slotTime < Hour(ticks[k + 1]) - 3600
    ensures !TickDue(w, ticks[m], key)
  {
    TickDueMeans(w, ticks[m], key);
    if m <= k {
      TicksAreSorted(ticks, m, k);
    } else {
      TicksAreSorted(ticks, k + 1, m);
    }
  }

  lemma KeyInGap(w: World, now: int, later: int) returns (key: SlotKey)
    requires HasHourlyStream(w) && Hour(later) - Hour(now) > 7200
    ensures Hourly(w, key) && ScheduledKey(w, key) && Hour(now) + 3600 <= key.slotTime < Hour(later) - 3600
  {
    HourIsAligned(now);
    HourIsAligned(later);
    AlignedNext(Hour(now));
    AlignedNext(Hour(now) + 3600);
    AlignedGap(Hour(now) + 7200, Hour(later));
    key := InstantInEveryHour(w, Hour(now) + 3600);
  }

  lemma GapMisses(w: World, ticks: seq<int>, k: nat)
    requires TickTimes(ticks) && k < |ticks| - 1 && HasHourlyStream(w)
    requires Hour(ticks[k + 1]) - Hour(ticks[k]) > 7200
    ensures !NothingMissed(w, ticks)
  {
    var key := KeyInGap(w, ticks[k], ticks[k + 1]);
    TicksAreSorted(ticks, 0, k);
    TicksAreSorted(ticks, k + 1, |ticks| - 1);
    forall m | 0 <= m < |ticks| ensures !TickDue(w, ticks[m], key) {
      TickMissesGap(w, ticks, k, m, key);
    }
    assert !GeneratedBy(w, ticks, key);
  }

  /** A run of ticks misses no instant of an hourly stream in its span exactly when consecutive ticks
      are at most two hour marks apart, or there is no such stream. */
  lemma CoverageExactlyWhenTicksClose(w: World, ticks: seq<int>)
    requires TickTimes(ticks)
    ensures NothingMissed(w, ticks) <==> TicksCloseEnough(ticks) || !HasHourlyStream(w)
  {
    if TicksCloseEnough(ticks) || !HasHourlyStream(w) {
      forall key | Hourly(w, key) && ScheduledKey(w, key)
                   && Hour(ticks[0]) - 3600 <= key.slotTime < Hour(ticks[|ticks| - 1]) + 3600
        ensures GeneratedBy(w, ticks, key)
      {
        NothingScheduled(w, key);
        CloseTicksCover(w, ticks, key);
      }
    } else {
      var k :| 0 <= k < |ticks| - 1 && Hour(ticks[k + 1]) - Hour(ticks[k]) > 7200;
      GapMisses(w, ticks, k);
    }
  }

  // ---- Analysis offsets beyond the hour ------------------------------------------------

  /** The instant is off minutes past the earlier hour mark of the tick's window, or past the later. */
  predicate Reached(now: int, off: int, t: int) {
    || (t == Hour(now) - 3600 + off * 60 && 0 <= off < 120)
    || (t == Hour(now) + off * 60 && -60 <= off < 60)
  }

  lemma ReachedMeans(now: int, off: int, h: int)
    requires Aligned(h)
    ensures var from, until, t := Hour(now) - 3600, Hour(now) + 3600, h + off * 60;
            (from <= h < until && from <= t < until) <==>
            || (h == Hour(now) - 3600 && 0 <= off < 120)
            || (h == Hour(now) && -60 <= off < 60)
  {
    HourIsAligned(now);
  }

  /** An instant of the tick's window is reached from one of its two hour marks. */
  lemma InstantReached(now: int, offsets: seq<int>, t: int) returns (off: int)
    requires AnalysisInstant(Hour(now) - 3600, Hour(now) + 3600, offsets, t)
    ensures off in OffsetsOrDefault(offsets) && Reached(now, off, t)
  {
    var offs, from, until := OffsetsOrDefault(offsets), Hour(now) - 3600, Hour(now) + 3600;
    HourIsAligned(now);
    var h :| AtMark(Hour(from), until, offs, t, h);
    var k :| 0 <= k < |offs| && t == h + offs[k] * 60;
    off := offs[k];
    ReachedMeans(now, off, h);
  }

  lemma ReachedIsInstant(now: int, offsets: seq<int>, t: int, off: int)
    requires off in OffsetsOrDefault(offsets) && Reached(now, off, t)
    ensures AnalysisInstant(Hour(now) - 3600, Hour(now) + 3600, offsets, t)
  {
    var offs, from, until := OffsetsOrDefault(offsets), Hour(now) - 3600, Hour(now) + 3600;
    HourIsAligned(now);
    var h := t - off * 60;
    ReachedMeans(now, off, h);
    var k :| 0 <= k < |offs| && offs[k] == off;
    assert AtMark(Hour(from), until, offs, t, h);
  }

  /** What one tick generates for analysis, whatever the offsets: from the later hour mark of its
      window those of that hour and of the hour before, from the earlier mark those of the next two
      hours; an offset outside [-60, 120) is never generated. */
  lemma AnalysisTickExactly(w: World, now: int, key: SlotKey)
    requires key.job.AnalysisBatch?
    ensures TickDue(w, now, key) <==>
            && w.locations != [] && w.analysisConfig != 0 && key.config == w.analysisConfig && key.location == 0
            && exists off :: off in OffsetsOrDefault(w.analysisOffsets) && Reached(now, off, key.slotTime)
  {
    if AnalysisInstant(Hour(now) - 3600, Hour(now) + 3600, w.analysisOffsets, key.slotTime) {
      var off := InstantReached(now, w.analysisOffsets, key.slotTime);
    }
    if off :| off in OffsetsOrDefault(w.analysisOffsets) && Reached(now, off, key.slotTime) {
      ReachedIsInstant(now, w.analysisOffsets, key.slotTime, off);
    }
  }

  /** Without configured offsets analysis is scheduled ten and forty minutes past every hour. */
  lemma DefaultAnalysisInstants(from: int, until: int, t: int)
    requires Aligned(from) && Aligned(until)
    ensures AnalysisInstant(from, until, [], t) <==> from <= t < until && (t % 3600 == 600 || t % 3600 == 2400)
  {
    if from <= t < until {
      var offs := OffsetsOrDefault([]);
      AnalysisHour(offs, from, until, t);
      HourIsAligned(t);
      if t % 3600 == 600 {
        assert t == Hour(t) + offs[0] * 60;
      } else if t % 3600 == 2400 {
        assert t == Hour(t) + offs[1] * 60;
      }
    }
  }

  /** The generating side of the scheduler loop: over any run of ticks the table holds one row for
      each key that some tick generated, and no others. */
  method RunTicks(repo: SlotRepository, w: World, ticks: seq<int>) returns (nextId: nat)
    requires repo.slots == map[]
    modifies repo
    ensures UniqueKeys(repo.slots)
    ensures forall key :: HasKey(repo.slots, key) <==> GeneratedBy(w, ticks, key)
  {
    nextId := 0;
    var i := 0;
    while i < |ticks|
      invariant 0 <= i <= |ticks|
      invariant UniqueKeys(repo.slots) && forall id :: id in repo.slots ==> id < nextId
      invariant forall key :: HasKey(repo.slots, key) <==> exists k :: 0 <= k < i && TickDue(w, ticks[k], key)
    {
      nextId := GenerateSlots(repo, w, ticks[i], nextId);
      i := i + 1;
    }
  }
}
