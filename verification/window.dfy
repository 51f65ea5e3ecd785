/** The scan window of `populateDurationInDays` and the trailing grid offset
    of `calcOffset` (internal/scanner/stats.go). */
module Window {
  import opened Wrappers
  import opened Text
  import opened Date
  import opened Interfaces

  /** `DefaultDurationInDays`: the window length when no week count is given. */
  const DefaultDurationInDays: int := 365

  datatype Unit = Years | Months | Weeks | Days

  /** The letter naming a unit in a delta string. */
  function Letter(u: Unit): char
  {
    match u
    case Years => 'y'
    case Months => 'm'
    case Weeks => 'w'
    case Days => 'd'
  }

  /** The order in which the `switch` tests the letters. */
  function Rank(u: Unit): nat
  {
    match u
    case Years => 0
    case Months => 1
    case Weeks => 2
    case Days => 3
  }

  /** A parsed delta: none at all, or a count of units to go back by. */
  datatype Shift = Unshifted | Back(unit: Unit, amount: int)

  /** The `switch` in `populateDurationInDays`: the first unit, in the order
      years, months, weeks, days, whose letter occurs anywhere in `delta`. */
  function UnitOf(delta: string): (u: Option<Unit>)
    ensures u.Some? ==> Letter(u.value) in delta
    ensures u.None? <==> forall v: Unit :: Letter(v) !in delta
    ensures u.Some? ==> forall v: Unit :: Rank(v) < Rank(u.value) ==> Letter(v) !in delta
  {
    if 'y' in delta then Some(Years)
    else if 'm' in delta then Some(Months)
    else if 'w' in delta then Some(Weeks)
    else if 'd' in delta then Some(Days)
    else
      assert forall v: Unit :: Letter(v) !in delta by {
        forall v: Unit ensures Letter(v) !in delta {
          assert v.Years? || v.Months? || v.Weeks? || v.Days?;
        }
      }
      None
  }

  /** The delta part of `populateDurationInDays`: the number is the text before
      the first occurrence of the unit's letter, read by `strconv.Atoi`; text
      after the letter is ignored. */
  function ParseDelta(delta: string): (r: Result<Shift, Error>)
    ensures r == Ok(Unshifted) <==> delta == []
    ensures r == Err(DeltaFormat) <==> delta != [] && forall v: Unit :: Letter(v) !in delta
    ensures r.Ok? && r.value.Back? ==>
      UnitOf(delta) == Some(r.value.unit)
      && Atoi(delta[..IndexOf(delta, Letter(r.value.unit))]) == Some(r.value.amount)
    ensures r == Err(DeltaNotANumber) <==>
      UnitOf(delta).Some? && Atoi(delta[..IndexOf(delta, Letter(UnitOf(delta).value))]).None?
    ensures r.Err? ==> r.error == DeltaFormat || r.error == DeltaNotANumber
  {
    match UnitOf(delta)
    case None => if delta == [] then Ok(Unshifted) else Err(DeltaFormat)
    case Some(u) =>
      match Atoi(Split(delta, Letter(u))[0])
      case None => Err(DeltaNotANumber)
      case Some(n) => Ok(Back(u, n))
  }

  /** The unit chosen is the one whose letter occurs while no earlier-tested
      letter does. */
  lemma UnitOfFirst(delta: string, u: Unit)
    requires Letter(u) in delta
    requires forall v: Unit :: Rank(v) < Rank(u) ==> Letter(v) !in delta
    ensures UnitOf(delta) == Some(u)
  {
    assert Rank(Years) == 0 && Rank(Months) == 1 && Rank(Weeks) == 2;
  }

  /** A delta written as `<int><letter><anything>` parses to that count of that
      unit, provided the trailing text holds no letter tested earlier. */
  lemma ParseDeltaFormatted(n: int, u: Unit, rest: string)
    requires MinInt <= n <= MaxInt
    requires forall v: Unit :: Rank(v) < Rank(u) ==> Letter(v) !in rest
    ensures ParseDelta(Itoa(n) + [Letter(u)] + rest) == Ok(Back(u, n))
  {
    forall v: Unit ensures Letter(v) !in Itoa(n) {
    }
    ParseDeltaText(Itoa(n), u, rest);
    AtoiItoa(n);
  }

  /** A delta written as `<number><letter><anything>`, where neither the
      number nor the trailing text holds a letter tested before, is read
      as the number `strconv.Atoi` makes of the text before the letter. */
  lemma ParseDeltaText(number: string, u: Unit, rest: string)
    requires forall v: Unit :: Letter(v) !in number
    requires forall v: Unit :: Rank(v) < Rank(u) ==> Letter(v) !in rest
    ensures ParseDelta(number + [Letter(u)] + rest) ==
      if Atoi(number).Some? then Ok(Back(u, Atoi(number).value)) else Err(DeltaNotANumber)
  {
    var s := number + [Letter(u)] + rest;
    forall v: Unit | Rank(v) < Rank(u) ensures Letter(v) !in s {
      assert Letter(v) != Letter(u);
    }
    assert Letter(u) in s by {
      assert s[|number|] == Letter(u);
    }
    UnitOfFirst(s, u);
    IndexOfAfter(number, Letter(u), rest);
    assert s[..|number|] == number;
  }

  /** `3d5` reads as three days: the text after the letter is ignored. */
  lemma TrailingTextIgnored()
    ensures ParseDelta("3d5") == Ok(Back(Days, 3))
  {
    ParseDeltaFormatted(3, Days, "5");
    assert Itoa(3) == "3";
    assert Itoa(3) + [Letter(Days)] + "5" == "3d5";
  }

  /** A `+` sign and leading zeros are accepted, as `strconv.Atoi` accepts them. */
  lemma SignedAndPaddedDeltas()
    ensures ParseDelta("+3d") == Ok(Back(Days, 3))
    ensures ParseDelta("03d") == Ok(Back(Days, 3))
  {
    AtoiForms();
    DaysDelta("+3", 3);
    assert "+3" + "d" == "+3d";
    DaysDelta("03", 3);
    assert "03" + "d" == "03d";
  }

  /** A number of days followed by `d`. */
  lemma DaysDelta(number: string, n: int)
    requires Atoi(number) == Some(n)
    ensures ParseDelta(number + "d") == Ok(Back(Days, n))
  {
    forall v: Unit ensures Letter(v) !in number {
      assert !IsDigit(Letter(v)) && Letter(v) != '+' && Letter(v) != '-';
    }
    ParseDeltaText(number, Days, "");
    assert number + [Letter(Days)] + "" == number + "d";
  }

  /** The sign normalisation: a positive count is negated, so a shift never
      points forward in time. */
  function Backwards(n: int): (m: int)
    ensures m <= 0
    ensures m == n || m == -n
    ensures n <= 0 ==> m == n
  {
    if n > 0 then -n else n
  }

  /** Magnitude of a count. */
  function Abs(n: int): (m: int)
    ensures m >= 0 && (m == n || m == -n)
  {
    if n < 0 then -n else n
  }

  /** The end of the scan after applying a parsed delta to `now`: years and
      months go through the calendar, weeks and days are whole days. */
  function EndOf(now: int, shift: Shift, cal: Calendar): (end: int)
    ensures shift.Unshifted? ==> end == now
    ensures shift.Back? && shift.unit == Years ==> end == cal.addYears(now, -Abs(shift.amount))
    ensures shift.Back? && shift.unit == Months ==> end == cal.addMonths(now, -Abs(shift.amount))
    ensures shift.Back? && shift.unit == Weeks ==>
      end == now - Abs(shift.amount) * 7 * SecondsPerDay
    ensures shift.Back? && shift.unit == Days ==>
      end == now - Abs(shift.amount) * SecondsPerDay
  {
    match shift
    case Unshifted => now
    case Back(unit, n) =>
      var v := Backwards(n);
      match unit
      case Years => cal.addYears(now, v)
      case Months => cal.addMonths(now, v)
      case Weeks => now + v * 7 * SecondsPerDay
      case Days => now + v * SecondsPerDay
  }

  /** A week or day delta never moves the end of the scan forward, keeps its
      time of day and moves it back by whole days. */
  lemma ShiftNeverForward(now: int, shift: Shift, cal: Calendar)
    requires shift.Back? && (shift.unit == Weeks || shift.unit == Days)
    ensures EndOf(now, shift, cal) <= now
    ensures TimeOfDay(EndOf(now, shift, cal)) == TimeOfDay(now)
    ensures DayOf(EndOf(now, shift, cal)) ==
      DayOf(now) - Abs(shift.amount) * (if shift.unit == Weeks then 7 else 1)
  {
    var k := -Abs(shift.amount) * (if shift.unit == Weeks then 7 else 1);
    assert EndOf(now, shift, cal) == now + k * SecondsPerDay;
    ShiftDays(now, k);
  }

  /** The nominal window length: seven days per requested week, or the default. */
  function NominalDays(weeks: int): (days: int)
    ensures days > 0
    ensures weeks > 0 ==> days == weeks * 7
    ensures weeks <= 0 ==> days == DefaultDurationInDays
  {
    if weeks > 0 then weeks * 7 else DefaultDurationInDays
  }

  datatype ScanWindow = ScanWindow(beginOfScan: int, endOfScan: int, durationInDays: int)

  /** The week alignment of `populateDurationInDays`: the window
      `days` days long ending at `end` is left alone when it begins on a
      Monday; otherwise both ends move by `1 - weekday(begin)` days (forward
      for a Sunday), the end by six more, the begin is taken to 00:00:00, the
      end to 23:59:59, and the length is recomputed from the two instants. */
  function AlignToWeeks(end: int, days: int): ScanWindow
  {
    var begin := end - days * SecondsPerDay;
    if Weekday(begin) != 1 then
      var offset := 1 - Weekday(begin);
      var b := BeginningOfDay(begin + offset * SecondsPerDay);
      var e := EndOfDay(end + (offset + 6) * SecondsPerDay);
      ScanWindow(b, e, DaysBetween(b, e))
    else
      ScanWindow(begin, end, days)
  }

  /** A window that already begins on a Monday is not touched. */
  lemma AlignMondayUnchanged(end: int, days: int)
    requires Weekday(end - days * SecondsPerDay) == 1
    ensures AlignToWeeks(end, days) == ScanWindow(end - days * SecondsPerDay, end, days)
  {
  }

  /** Otherwise the aligned window begins on a Monday at 00:00:00, ends at
      23:59:59 on the day `days + 6` days later, which is weekday `days % 7`,
      and its length is `days + 6`. */
  lemma AlignSnapsToMonday(end: int, days: int)
    requires days >= 0
    requires Weekday(end - days * SecondsPerDay) != 1
    ensures var begin := end - days * SecondsPerDay;
      var w := AlignToWeeks(end, days);
      && DayOf(w.beginOfScan) == DayOf(begin) + 1 - Weekday(begin)
      && DayOf(w.endOfScan) == DayOf(end) + 7 - Weekday(begin)
      && Weekday(w.beginOfScan) == 1 && TimeOfDay(w.beginOfScan) == 0
      && TimeOfDay(w.endOfScan) == SecondsPerDay - 1
      && DayOf(w.endOfScan) - DayOf(w.beginOfScan) == days + 6
      && Weekday(w.endOfScan) == days % 7
      && w.durationInDays == days + 6
  {
    var begin := end - days * SecondsPerDay;
    var w := AlignToWeeks(end, days);
    AlignedDays(end, days);
    WeekdayAfterSnap(DayOf(begin), days);
    DaysBetweenDayBounds(w.beginOfScan, w.endOfScan);
  }

  /** The day numbers of the two aligned ends. */
  lemma AlignedDays(end: int, days: int)
    requires Weekday(end - days * SecondsPerDay) != 1
    ensures var begin := end - days * SecondsPerDay;
      var w := AlignToWeeks(end, days);
      && DayOf(begin) == DayOf(end) - days
      && DayOf(w.beginOfScan) == DayOf(begin) + 1 - Weekday(begin)
      && DayOf(w.endOfScan) == DayOf(end) + 7 - Weekday(begin)
  {
    var begin := end - days * SecondsPerDay;
    var offset := 1 - Weekday(begin);
    ShiftDays(end, -days);
    ShiftDays(begin, offset);
    ShiftDays(end, offset + 6);
  }

  /** Weekday arithmetic of the snap: stepping back to the Monday of a day's
      week (forward for a Sunday) lands on weekday 1, and `days + 6` days
      later lands on weekday `days % 7`. */
  lemma WeekdayAfterSnap(d: int, days: int)
    ensures var wd := (d + 4) % 7;
      && (d + 1 - wd + 4) % 7 == 1
      && (d + 1 - wd + days + 6 + 4) % 7 == days % 7
  {
    var q := (d + 4) / 7;
    var wd := (d + 4) % 7;
    assert d + 1 - wd + 4 == 7 * q + 1;
    assert d + 1 - wd + days + 6 + 4 == 7 * (q + 1) + days;
  }

  /** Alignment never shortens a window and never puts its begin after its end. */
  lemma AlignNeverShrinks(end: int, days: int)
    requires days >= 0
    ensures AlignToWeeks(end, days).durationInDays >= days
    ensures AlignToWeeks(end, days).beginOfScan <= AlignToWeeks(end, days).endOfScan
  {
    if Weekday(end - days * SecondsPerDay) != 1 {
      AlignSnapsToMonday(end, days);
      var w := AlignToWeeks(end, days);
      DayDecomposition(w.beginOfScan);
      DayDecomposition(w.endOfScan);
    }
  }

  /** `calcOffset`: the days missing to complete the last week row of the
      grid, from the weekday of the end of the scan. */
  function CalcOffset(endDate: int): (offset: int)
    ensures 1 <= offset <= 7
    ensures offset == 7 - Weekday(endDate)
    ensures (Weekday(endDate) + offset) % 7 == 0
  {
    match Weekday(endDate)
    case 0 => 7
    case 1 => 6
    case 2 => 5
    case 3 => 4
    case 4 => 3
    case 5 => 2
    case 6 => 1
  }

  /** The aligned window of the requested number of weeks (or the default)
      ending at `end`. */
  function WindowFor(end: int, weeks: int): (w: ScanWindow)
    ensures w.durationInDays >= NominalDays(weeks)
    ensures w.beginOfScan <= w.endOfScan
  {
    AlignNeverShrinks(end, NominalDays(weeks));
    AlignToWeeks(end, NominalDays(weeks))
  }

  /** `populateDurationInDays` applied to a result, with `now` the wall clock.
      A delta error is recorded and every window field is left as it was. */
  function Populate(r: StatsResult, opts: LaunchOptions, now: int, cal: Calendar): (p: StatsResult)
    ensures p.options == r.options && p.folder == r.folder && p.commits == r.commits
    ensures p.hoursCommits == r.hoursCommits && p.dayCommits == r.dayCommits
    ensures p.authorsEditions == r.authorsEditions
    ensures ParseDelta(opts.delta).Err? ==>
      p.error == Some(ParseDelta(opts.delta).error)
      && p.beginOfScan == r.beginOfScan && p.endOfScan == r.endOfScan
      && p.durationInDays == r.durationInDays
    ensures ParseDelta(opts.delta).Ok? ==>
      p.error == r.error
      && p.durationInDays >= NominalDays(opts.durationInWeeks)
      && p.beginOfScan <= p.endOfScan
  {
    match ParseDelta(opts.delta)
    case Err(e) => r.(error := Some(e))
    case Ok(shift) =>
      var w := WindowFor(EndOf(now, shift, cal), opts.durationInWeeks);
      r.(beginOfScan := w.beginOfScan, endOfScan := w.endOfScan, durationInDays := w.durationInDays)
  }

  /** On a valid delta the window ends where the delta puts it: with `end`
      the shifted instant and `begin` the nominal length before it, a window
      beginning on a Monday is kept as it is; otherwise its end moves to the
      day `7 - weekday(begin)` days after `end` at 23:59:59, its begin to the
      Monday of `begin`'s week at 00:00:00, and it is six days longer. */
  lemma PopulateWindow(r: StatsResult, opts: LaunchOptions, now: int, cal: Calendar)
    requires ParseDelta(opts.delta).Ok?
    ensures var end := EndOf(now, ParseDelta(opts.delta).value, cal);
      var days := NominalDays(opts.durationInWeeks);
      var begin := end - days * SecondsPerDay;
      var p := Populate(r, opts, now, cal);
      && (Weekday(begin) == 1 ==>
            p.endOfScan == end && p.beginOfScan == begin && p.durationInDays == days)
      && (Weekday(begin) != 1 ==>
            && DayOf(p.endOfScan) == DayOf(end) + 7 - Weekday(begin)
            && TimeOfDay(p.endOfScan) == SecondsPerDay - 1
            && DayOf(p.beginOfScan) == DayOf(begin) + 1 - Weekday(begin)
            && Weekday(p.beginOfScan) == 1 && TimeOfDay(p.beginOfScan) == 0
            && p.durationInDays == days + 6)
  {
    var end := EndOf(now, ParseDelta(opts.delta).value, cal);
    var days := NominalDays(opts.durationInWeeks);
    if Weekday(end - days * SecondsPerDay) != 1 {
      AlignSnapsToMonday(end, days);
    }
  }

  /** `2w` moves the end of the scan back fourteen days, then into the
      following week when the window does not begin on a Monday; `2x` is
      refused. */
  lemma TwoWeeksBack(r: StatsResult, opts: LaunchOptions, now: int, cal: Calendar)
    requires opts.delta == "2w"
    ensures ParseDelta("2w") == Ok(Back(Weeks, 2))
    ensures ParseDelta("2x") == Err(DeltaFormat)
    ensures var p := Populate(r, opts, now, cal);
      DayOf(now) - 14 <= DayOf(p.endOfScan) <= DayOf(now) - 14 + 7
  {
    ParseDeltaFormatted(2, Weeks, "");
    assert Itoa(2) == "2";
    assert Itoa(2) + [Letter(Weeks)] + "" == "2w";
    assert forall v: Unit :: Letter(v) !in "2x";
    var end := now - 14 * SecondsPerDay;
    assert EndOf(now, Back(Weeks, 2), cal) == end;
    ShiftDays(now, -14);
    PopulateWindow(r, opts, now, cal);
  }

  /** With no delta and no week count the window nominally covers 365 days;
      when that does not begin on a Monday it is stretched to 371 days ending
      on a Monday, at most six days after `now`, and the grid offset is 6. */
  lemma DefaultWindow(r: StatsResult, opts: LaunchOptions, now: int, cal: Calendar)
    requires opts.delta == [] && opts.durationInWeeks <= 0
    requires Weekday(now - DefaultDurationInDays * SecondsPerDay) != 1
    ensures var p := Populate(r, opts, now, cal);
      && p.durationInDays == 371
      && Weekday(p.endOfScan) == 1
      && DayOf(now) < DayOf(p.endOfScan) <= DayOf(now) + 7
      && CalcOffset(p.endOfScan) == 6
  {
    assert ParseDelta(opts.delta) == Ok(Unshifted);
    AlignSnapsToMonday(now, DefaultDurationInDays);
  }

  /** With a week count and a window not beginning on a Monday, the aligned
      window is `7 * weeks + 6` days long and ends on a Sunday, so the grid
      offset is a full week. */
  lemma WeeksWindow(r: StatsResult, opts: LaunchOptions, now: int, cal: Calendar)
    requires opts.durationInWeeks > 0 && ParseDelta(opts.delta).Ok?
    requires var end := EndOf(now, ParseDelta(opts.delta).value, cal);
      Weekday(end - opts.durationInWeeks * 7 * SecondsPerDay) != 1
    ensures var p := Populate(r, opts, now, cal);
      && p.durationInDays == opts.durationInWeeks * 7 + 6
      && Weekday(p.endOfScan) == 0
      && CalcOffset(p.endOfScan) == 7
  {
    var end := EndOf(now, ParseDelta(opts.delta).value, cal);
    var days := opts.durationInWeeks * 7;
    assert NominalDays(opts.durationInWeeks) == days;
    assert days % 7 == 0;
    AlignSnapsToMonday(end, days);
    var w := AlignToWeeks(end, days);
    assert WindowFor(end, opts.durationInWeeks) == w;
  }
}
