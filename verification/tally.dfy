/** The commit callback of `fillCommits` (internal/scanner/stats.go): the
    sentinel test, the author filter, the ledger update and the three
    histograms, and what a whole commit history adds up to. */
module Tally {
  import opened Date
  import opened Folds
  import opened Interfaces
  import opened Filters

  /** Go's map read: zero for a missing key. */
  function Get(m: map<int, int>, k: int): int
  {
    if k in m then m[k] else 0
  }

  function Sum(s: seq<int>): int
    decreases |s|
  {
    if |s| == 0 then 0 else s[0] + Sum(s[1..])
  }

  /** Incrementing one cell adds one to the total. */
  lemma {:induction false} SumIncrement(s: seq<int>, i: int)
    requires 0 <= i < |s|
    ensures Sum(s[i := s[i] + 1]) == Sum(s) + 1
    decreases |s|
  {
    if i > 0 {
      assert s[i := s[i] + 1][1..] == s[1..][i - 1 := s[i] + 1];
      SumIncrement(s[1..], i - 1);
    } else {
      assert s[i := s[i] + 1][1..] == s[1..];
    }
  }

  /** The commit's grid key: `CountDaysSinceDate` (in closed form) plus the
      offset of `calcOffset`. */
  function DaysAgo(r: StatsResult, c: Commit, offset: int): int
  {
    DayBucket(c.when, r.endOfScan, r.durationInDays) + offset
  }

  /** The commit gets past the `OutOfRange` test and the author filter, so its
      kept file stats reach the ledger. */
  predicate Reaches(r: StatsResult, c: Commit, offset: int)
  {
    DaysAgo(r, c, offset) != OutOfRange && AcceptsAuthor(r.options.emailOrUsername, c)
  }

  /** It also lies in the window, so it is counted in the three histograms. */
  predicate Counted(r: StatsResult, c: Commit, offset: int)
  {
    Reaches(r, c, offset) && DaysAgo(r, c, offset) <= r.durationInDays
  }

  /** The ledger calls the commit makes. */
  function CommitEdits(r: StatsResult, c: Commit, m: Matcher): seq<Edit>
  {
    KeptEdits(c.authorName, c.stats, r.options.patternToExclude, r.options.patternToInclude, m)
  }

  /** The fields the callback never writes. */
  predicate SameSetup(p: StatsResult, r: StatsResult)
  {
    p.options == r.options && p.beginOfScan == r.beginOfScan && p.endOfScan == r.endOfScan
    && p.durationInDays == r.durationInDays && p.folder == r.folder && p.error == r.error
  }

  /** The three histogram increments of one counted commit. */
  function Bump(r: StatsResult, daysAgo: int, hour: int, day: int): StatsResult
    requires 0 <= hour < 24 && 0 <= day < 7
  {
    r.(commits := r.commits[daysAgo := Get(r.commits, daysAgo) + 1],
       hoursCommits := r.hoursCommits[hour := r.hoursCommits[hour] + 1],
       dayCommits := r.dayCommits[day := r.dayCommits[day] + 1])
  }

  /** The `ForEach` callback for one commit. A commit with the sentinel key
      or a foreign author changes nothing. Otherwise its kept stats go to the
      ledger whatever its key, and the histograms count it only when its key
      is at most `DurationInDays` -- even when no stat was kept. */
  function ProcessCommit(r: StatsResult, c: Commit, offset: int, m: Matcher): (p: StatsResult)
    ensures SameSetup(p, r)
    ensures !Reaches(r, c, offset) ==> p == r
    ensures Reaches(r, c, offset) ==>
      p.authorsEditions == Replay(r.authorsEditions, CommitEdits(r, c, m))
    ensures !Counted(r, c, offset) ==>
      p.commits == r.commits && p.hoursCommits == r.hoursCommits && p.dayCommits == r.dayCommits
    ensures Counted(r, c, offset) ==>
      var k, h, d := DaysAgo(r, c, offset), Hour(c.when), Weekday(c.when);
      && p.commits.Keys == r.commits.Keys + {k}
      && Get(p.commits, k) == Get(r.commits, k) + 1
      && (forall j :: j != k ==> Get(p.commits, j) == Get(r.commits, j))
      && p.hoursCommits[h] == r.hoursCommits[h] + 1
      && (forall i :: 0 <= i < 24 && i != h ==> p.hoursCommits[i] == r.hoursCommits[i])
      && p.dayCommits[d] == r.dayCommits[d] + 1
      && (forall i :: 0 <= i < 7 && i != d ==> p.dayCommits[i] == r.dayCommits[i])
  {
    var daysAgo := DaysAgo(r, c, offset);
    var hour := Hour(c.when);
    var day := Weekday(c.when);
    if daysAgo == OutOfRange then r
    else if !AcceptsAuthor(r.options.emailOrUsername, c) then r
    else
      var r1 := r.(authorsEditions := Replay(r.authorsEditions, CommitEdits(r, c, m)));
      if daysAgo <= r.durationInDays then Bump(r1, daysAgo, hour, day) else r1
  }

  /** The `OutOfRange` test sits after the offset is added: with an offset of
      1 to 7 and a window shorter than `OutOfRange - 7` days it never fires,
      so every commit of an accepted author reaches the ledger. */
  lemma SentinelNeverFires(r: StatsResult, c: Commit, offset: int)
    requires 1 <= offset <= 7 && r.durationInDays < OutOfRange - 7
    ensures DaysAgo(r, c, offset) != OutOfRange
    ensures Reaches(r, c, offset) <==> AcceptsAuthor(r.options.emailOrUsername, c)
  {
  }

  /** A commit after the end of the scan still reaches the ledger, without
      being counted. */
  lemma LateCommitReachesLedger(r: StatsResult, c: Commit, offset: int, m: Matcher)
    requires 1 <= offset <= 7 && 0 <= r.durationInDays < OutOfRange - 7
    requires c.when > EndOfDay(r.endOfScan) && AcceptsAuthor(r.options.emailOrUsername, c)
    ensures var p := ProcessCommit(r, c, offset, m);
      && p.authorsEditions == Replay(r.authorsEditions, CommitEdits(r, c, m))
      && p.commits == r.commits && p.hoursCommits == r.hoursCommits && p.dayCommits == r.dayCommits
  {
    SentinelNeverFires(r, c, offset);
  }

  /** The ledger after one commit: its author gains the sum of the kept
      stats' line counts, every other author keeps their totals. */
  lemma ProcessCommitLedger(r: StatsResult, c: Commit, offset: int, m: Matcher, u: string)
    ensures Lookup(ProcessCommit(r, c, offset, m).authorsEditions, u) ==
      if Reaches(r, c, offset) && u == c.authorName
      then Plus(Lookup(r.authorsEditions, u), KeptTotal(c.stats, r.options.patternToExclude, r.options.patternToInclude, m))
      else Lookup(r.authorsEditions, u)
  {
    if Reaches(r, c, offset) {
      ReplayTotals(r.authorsEditions, CommitEdits(r, c, m), u);
      KeptEditsTotal(c.authorName, c.stats, r.options.patternToExclude, r.options.patternToInclude, m, u);
    }
  }

  /** The callback as a step function for `Fold`. */
  function Step(offset: int, m: Matcher): (StatsResult, Commit) -> StatsResult
  {
    (r: StatsResult, c: Commit) => ProcessCommit(r, c, offset, m)
  }

  /** `iterator.ForEach`: the callback over a history, in log order. */
  function FillCommits(r: StatsResult, cs: seq<Commit>, offset: int, m: Matcher): StatsResult
  {
    Fold(Step(offset, m), r, cs)
  }

  /** The commits of `cs` the histograms count, in order. */
  function CountedCommits(r: StatsResult, cs: seq<Commit>, offset: int): (counted: seq<Commit>)
    ensures |counted| <= |cs|
    decreases |cs|
  {
    if |cs| == 0 then []
    else if Counted(r, cs[0], offset) then [cs[0]] + CountedCommits(r, cs[1..], offset)
    else CountedCommits(r, cs[1..], offset)
  }

  /** The commits of `cs` whose stats reach the ledger, in order. */
  function ReachingCommits(r: StatsResult, cs: seq<Commit>, offset: int): seq<Commit>
    decreases |cs|
  {
    if |cs| == 0 then []
    else if Reaches(r, cs[0], offset) then [cs[0]] + ReachingCommits(r, cs[1..], offset)
    else ReachingCommits(r, cs[1..], offset)
  }

  /** The ledger calls of a sequence of commits, commit after commit. */
  function AllEdits(r: StatsResult, cs: seq<Commit>, m: Matcher): seq<Edit>
    decreases |cs|
  {
    if |cs| == 0 then [] else CommitEdits(r, cs[0], m) + AllEdits(r, cs[1..], m)
  }

  /** How many commits of `cs` have author hour `h`, weekday `d`, grid key `k`. */
  function HourCount(cs: seq<Commit>, h: int): nat
    decreases |cs|
  {
    if |cs| == 0 then 0 else (if Hour(cs[0].when) == h then 1 else 0) + HourCount(cs[1..], h)
  }

  function WeekdayCount(cs: seq<Commit>, d: int): nat
    decreases |cs|
  {
    if |cs| == 0 then 0 else (if Weekday(cs[0].when) == d then 1 else 0) + WeekdayCount(cs[1..], d)
  }

  function KeyCount(r: StatsResult, cs: seq<Commit>, offset: int, k: int): nat
    decreases |cs|
  {
    if |cs| == 0 then 0 else (if DaysAgo(r, cs[0], offset) == k then 1 else 0) + KeyCount(r, cs[1..], offset, k)
  }

  /** Replaying a history leaves the fields the callback never writes. */
  lemma {:induction false} FillCommitsSetup(r: StatsResult, cs: seq<Commit>, offset: int, m: Matcher)
    ensures SameSetup(FillCommits(r, cs, offset, m), r)
    decreases |cs|
  {
    if |cs| > 0 {
      FillCommitsSetup(ProcessCommit(r, cs[0], offset, m), cs[1..], offset, m);
    }
  }

  /** After a history, each histogram cell is its previous value plus the
      number of counted commits that fall into it. */
  lemma {:induction false} FillHistograms(r: StatsResult, cs: seq<Commit>, offset: int, m: Matcher, h: int, d: int, k: int)
    requires 0 <= h < 24 && 0 <= d < 7
    ensures var p := FillCommits(r, cs, offset, m);
      var counted := CountedCommits(r, cs, offset);
      && p.hoursCommits[h] == r.hoursCommits[h] + HourCount(counted, h)
      && p.dayCommits[d] == r.dayCommits[d] + WeekdayCount(counted, d)
      && Get(p.commits, k) == Get(r.commits, k) + KeyCount(r, counted, offset, k)
    decreases |cs|
  {
    if |cs| > 0 {
      var c := cs[0];
      var r1 := ProcessCommit(r, c, offset, m);
      FillHistograms(r1, cs[1..], offset, m, h, d, k);
      assert FillCommits(r, cs, offset, m) == FillCommits(r1, cs[1..], offset, m);
      CountedCommitsSetup(r1, r, cs[1..], offset);
      KeyCountSetup(r1, r, CountedCommits(r, cs[1..], offset), offset, k);
      if Counted(r, c, offset) {
        var rest := CountedCommits(r, cs[1..], offset);
        assert ([c] + rest)[1..] == rest;
      }
    }
  }

  /** Which commits are counted depends only on the fields the callback never writes. */
  lemma {:induction false} CountedCommitsSetup(r1: StatsResult, r: StatsResult, cs: seq<Commit>, offset: int)
    requires SameSetup(r1, r)
    ensures CountedCommits(r1, cs, offset) == CountedCommits(r, cs, offset)
    ensures ReachingCommits(r1, cs, offset) == ReachingCommits(r, cs, offset)
    decreases |cs|
  {
    if |cs| > 0 {
      CountedCommitsSetup(r1, r, cs[1..], offset);
    }
  }

  lemma {:induction false} KeyCountSetup(r1: StatsResult, r: StatsResult, cs: seq<Commit>, offset: int, k: int)
    requires SameSetup(r1, r)
    ensures KeyCount(r1, cs, offset, k) == KeyCount(r, cs, offset, k)
    decreases |cs|
  {
    if |cs| > 0 {
      KeyCountSetup(r1, r, cs[1..], offset, k);
    }
  }

  lemma {:induction false} AllEditsSetup(r1: StatsResult, r: StatsResult, cs: seq<Commit>, m: Matcher)
    requires SameSetup(r1, r)
    ensures AllEdits(r1, cs, m) == AllEdits(r, cs, m)
    decreases |cs|
  {
    if |cs| > 0 {
      AllEditsSetup(r1, r, cs[1..], m);
    }
  }

  /** After a history, the ledger is the previous ledger replayed with the
      calls of every commit that reached it, in log order. */
  lemma {:induction false} FillLedger(r: StatsResult, cs: seq<Commit>, offset: int, m: Matcher)
    ensures FillCommits(r, cs, offset, m).authorsEditions ==
      Replay(r.authorsEditions, AllEdits(r, ReachingCommits(r, cs, offset), m))
    decreases |cs|
  {
    if |cs| > 0 {
      var c := cs[0];
      var r1 := ProcessCommit(r, c, offset, m);
      FillLedger(r1, cs[1..], offset, m);
      assert FillCommits(r, cs, offset, m) == FillCommits(r1, cs[1..], offset, m);
      CountedCommitsSetup(r1, r, cs[1..], offset);
      var rest := ReachingCommits(r, cs[1..], offset);
      AllEditsSetup(r1, r, rest, m);
      if Reaches(r, c, offset) {
        assert ([c] + rest)[0] == c && ([c] + rest)[1..] == rest;
        FoldAppend(ApplyEdit, r.authorsEditions, CommitEdits(r, c, m), AllEdits(r, rest, m));
      }
    } else {
      assert FillCommits(r, cs, offset, m) == r;
    }
  }

  /** A counted commit adds one to each histogram's total; any other leaves it. */
  lemma ProcessCommitSums(r: StatsResult, c: Commit, offset: int, m: Matcher)
    ensures var p := ProcessCommit(r, c, offset, m);
      var n := if Counted(r, c, offset) then 1 else 0;
      Sum(p.hoursCommits) == Sum(r.hoursCommits) + n && Sum(p.dayCommits) == Sum(r.dayCommits) + n
  {
    var p := ProcessCommit(r, c, offset, m);
    if Counted(r, c, offset) {
      var h, d := Hour(c.when), Weekday(c.when);
      assert p.hoursCommits == r.hoursCommits[h := r.hoursCommits[h] + 1];
      assert p.dayCommits == r.dayCommits[d := r.dayCommits[d] + 1];
      SumIncrement(r.hoursCommits, h);
      SumIncrement(r.dayCommits, d);
    }
  }

  /** Every counted commit adds exactly one to each histogram's total. */
  lemma {:induction false} FillCommitsCount(r: StatsResult, cs: seq<Commit>, offset: int, m: Matcher)
    ensures var p := FillCommits(r, cs, offset, m);
      && Sum(p.hoursCommits) == Sum(r.hoursCommits) + |CountedCommits(r, cs, offset)|
      && Sum(p.dayCommits) == Sum(r.dayCommits) + |CountedCommits(r, cs, offset)|
    decreases |cs|
  {
    if |cs| > 0 {
      var c := cs[0];
      var r1 := ProcessCommit(r, c, offset, m);
      FillCommitsCount(r1, cs[1..], offset, m);
      assert FillCommits(r, cs, offset, m) == FillCommits(r1, cs[1..], offset, m);
      CountedCommitsSetup(r1, r, cs[1..], offset);
      ProcessCommitSums(r, c, offset, m);
    } else {
      assert FillCommits(r, cs, offset, m) == r;
    }
  }

  /** `sum_{k=1..n} Commits[k]`, with Go's zero default. */
  function GridTotal(commits: map<int, int>, n: int): int
    decreases if n > 0 then n else 0
  {
    if n <= 0 then 0 else GridTotal(commits, n - 1) + Get(commits, n)
  }

  /** Adding one at a key of the grid adds one to the grid total. */
  lemma {:induction false} GridIncrement(m1: map<int, int>, m2: map<int, int>, n: int, k: int)
    requires 1 <= k <= n
    requires Get(m2, k) == Get(m1, k) + 1
    requires forall j :: j != k ==> Get(m2, j) == Get(m1, j)
    ensures GridTotal(m2, n) == GridTotal(m1, n) + 1
    decreases n
  {
    if k < n {
      GridIncrement(m1, m2, n - 1, k);
    } else {
      GridSame(m1, m2, n - 1);
    }
  }

  /** The grid total only reads the keys `1..n`. */
  lemma {:induction false} GridSame(m1: map<int, int>, m2: map<int, int>, n: int)
    requires forall j :: 1 <= j <= n ==> Get(m2, j) == Get(m1, j)
    ensures GridTotal(m2, n) == GridTotal(m1, n)
    decreases if n > 0 then n else 0
  {
    if n > 0 {
      GridSame(m1, m2, n - 1);
    }
  }

  /** The loop of `processRepositories` that seeds `Commits`: a zero for
      every key from `DurationInDays` down to 1; key 0 is not seeded. */
  function SeedCommits(n: int): (seeded: map<int, int>)
    ensures forall k :: k in seeded <==> 1 <= k <= n
    ensures forall k :: k in seeded ==> seeded[k] == 0
    decreases if n > 0 then n else 0
  {
    if n <= 0 then map[] else SeedCommits(n - 1)[n := 0]
  }

  /** A freshly seeded grid totals zero. */
  lemma {:induction false} SeedTotal(n: int, k: int)
    ensures GridTotal(SeedCommits(n), k) == 0
    decreases if k > 0 then k else 0
  {
    if k > 0 {
      SeedTotal(n, k - 1);
    }
  }

  /** The histogram invariant: `Commits` holds exactly the keys of the grid,
      and the three histograms have the same total. */
  ghost predicate Tallied(r: StatsResult)
  {
    && (forall k :: k in r.commits <==> 1 <= k <= r.durationInDays)
    && Sum(r.hoursCommits) == GridTotal(r.commits, r.durationInDays)
    && Sum(r.dayCommits) == GridTotal(r.commits, r.durationInDays)
  }

  /** A seeded result with empty hour and weekday histograms is tallied. */
  lemma SeededTallied(r: StatsResult)
    requires r.commits == SeedCommits(r.durationInDays)
    requires Sum(r.hoursCommits) == 0 && Sum(r.dayCommits) == 0
    ensures Tallied(r)
  {
    SeedTotal(r.durationInDays, r.durationInDays);
  }

  /** The callback keeps the invariant: a counted commit's key is at least
      the offset, so the key set never grows. */
  lemma ProcessCommitTallied(r: StatsResult, c: Commit, offset: int, m: Matcher)
    requires Tallied(r) && offset >= 1
    ensures Tallied(ProcessCommit(r, c, offset, m))
  {
    var p := ProcessCommit(r, c, offset, m);
    if Counted(r, c, offset) {
      var k, h, d := DaysAgo(r, c, offset), Hour(c.when), Weekday(c.when);
      assert 1 <= k <= r.durationInDays;
      GridIncrement(r.commits, p.commits, r.durationInDays, k);
      assert p.hoursCommits == r.hoursCommits[h := r.hoursCommits[h] + 1];
      assert p.dayCommits == r.dayCommits[d := r.dayCommits[d] + 1];
      SumIncrement(r.hoursCommits, h);
      SumIncrement(r.dayCommits, d);
    }
  }

  lemma {:induction false} FillCommitsTallied(r: StatsResult, cs: seq<Commit>, offset: int, m: Matcher)
    requires Tallied(r) && offset >= 1
    ensures Tallied(FillCommits(r, cs, offset, m))
    decreases |cs|
  {
    if |cs| > 0 {
      var r1 := ProcessCommit(r, cs[0], offset, m);
      ProcessCommitTallied(r, cs[0], offset, m);
      FillCommitsTallied(r1, cs[1..], offset, m);
      assert FillCommits(r, cs, offset, m) == FillCommits(r1, cs[1..], offset, m);
    } else {
      assert FillCommits(r, cs, offset, m) == r;
    }
  }

  /** Two commits processed in either order leave the same result. */
  lemma ProcessCommitCommute(r: StatsResult, a: Commit, b: Commit, offset: int, m: Matcher)
    ensures ProcessCommit(ProcessCommit(r, a, offset, m), b, offset, m)
         == ProcessCommit(ProcessCommit(r, b, offset, m), a, offset, m)
  {
    CommuteLedger(r, a, b, offset, m);
    CommuteCommits(r, a, b, offset, m);
    CommuteHistograms(r, a, b, offset, m);
  }

  lemma CommuteLedger(r: StatsResult, a: Commit, b: Commit, offset: int, m: Matcher)
    ensures ProcessCommit(ProcessCommit(r, a, offset, m), b, offset, m).authorsEditions
         == ProcessCommit(ProcessCommit(r, b, offset, m), a, offset, m).authorsEditions
  {
    var pa, pb := ProcessCommit(r, a, offset, m), ProcessCommit(r, b, offset, m);
    assert CommitEdits(pa, b, m) == CommitEdits(r, b, m) && CommitEdits(pb, a, m) == CommitEdits(r, a, m);
    ReplayCommute(r.authorsEditions, CommitEdits(r, a, m), CommitEdits(r, b, m));
  }

  /** One more commit under key `k`. */
  function Inc(m: map<int, int>, k: int): map<int, int>
  {
    m[k := Get(m, k) + 1]
  }

  /** One more commit in cell `i`. */
  function IncAt(s: seq<int>, i: int): seq<int>
    requires 0 <= i < |s|
  {
    s[i := s[i] + 1]
  }

  lemma IncCommute(m: map<int, int>, k1: int, k2: int)
    ensures Inc(Inc(m, k1), k2) == Inc(Inc(m, k2), k1)
  {
    var x, y := Inc(Inc(m, k1), k2), Inc(Inc(m, k2), k1);
    assert x.Keys == y.Keys;
    forall j | j in x
      ensures x[j] == y[j]
    {
    }
  }

  lemma IncAtCommute(s: seq<int>, i: int, j: int)
    requires 0 <= i < |s| && 0 <= j < |s|
    ensures IncAt(IncAt(s, i), j) == IncAt(IncAt(s, j), i)
  {
  }

  /** The three histograms after one commit, as increments. */
  lemma ProcessCommitCells(r: StatsResult, c: Commit, offset: int, m: Matcher)
    ensures var p := ProcessCommit(r, c, offset, m);
      var counted := Counted(r, c, offset);
      && p.commits == (if counted then Inc(r.commits, DaysAgo(r, c, offset)) else r.commits)
      && p.hoursCommits == (if counted then IncAt(r.hoursCommits, Hour(c.when)) else r.hoursCommits)
      && p.dayCommits == (if counted then IncAt(r.dayCommits, Weekday(c.when)) else r.dayCommits)
  {
  }

  /** The second commit sees the same key and the same verdicts as the first. */
  lemma SecondCommit(r: StatsResult, a: Commit, b: Commit, offset: int, m: Matcher)
    ensures var pa := ProcessCommit(r, a, offset, m);
      && Counted(pa, b, offset) == Counted(r, b, offset)
      && DaysAgo(pa, b, offset) == DaysAgo(r, b, offset)
  {
  }

  lemma CommuteCommits(r: StatsResult, a: Commit, b: Commit, offset: int, m: Matcher)
    ensures ProcessCommit(ProcessCommit(r, a, offset, m), b, offset, m).commits
         == ProcessCommit(ProcessCommit(r, b, offset, m), a, offset, m).commits
  {
    var pa, pb := ProcessCommit(r, a, offset, m), ProcessCommit(r, b, offset, m);
    ProcessCommitCells(r, a, offset, m);
    ProcessCommitCells(r, b, offset, m);
    ProcessCommitCells(pa, b, offset, m);
    ProcessCommitCells(pb, a, offset, m);
    SecondCommit(r, a, b, offset, m);
    SecondCommit(r, b, a, offset, m);
    IncCommute(r.commits, DaysAgo(r, a, offset), DaysAgo(r, b, offset));
  }

  lemma CommuteHistograms(r: StatsResult, a: Commit, b: Commit, offset: int, m: Matcher)
    ensures ProcessCommit(ProcessCommit(r, a, offset, m), b, offset, m).hoursCommits
         == ProcessCommit(ProcessCommit(r, b, offset, m), a, offset, m).hoursCommits
    ensures ProcessCommit(ProcessCommit(r, a, offset, m), b, offset, m).dayCommits
         == ProcessCommit(ProcessCommit(r, b, offset, m), a, offset, m).dayCommits
  {
    var pa, pb := ProcessCommit(r, a, offset, m), ProcessCommit(r, b, offset, m);
    ProcessCommitCells(r, a, offset, m);
    ProcessCommitCells(r, b, offset, m);
    ProcessCommitCells(pa, b, offset, m);
    ProcessCommitCells(pb, a, offset, m);
    SecondCommit(r, a, b, offset, m);
    SecondCommit(r, b, a, offset, m);
    IncAtCommute(r.hoursCommits, Hour(a.when), Hour(b.when));
    IncAtCommute(r.dayCommits, Weekday(a.when), Weekday(b.when));
  }

  /** Two commits' ledger calls commute as blocks. */
  lemma ReplayCommute(a: AuthorsStats, ea: seq<Edit>, eb: seq<Edit>)
    ensures Replay(Replay(a, ea), eb) == Replay(Replay(a, eb), ea)
  {
    FoldAppend(ApplyEdit, a, ea, eb);
    FoldAppend(ApplyEdit, a, eb, ea);
    assert multiset(ea + eb) == multiset(eb + ea);
    ReplayPermutation(a, ea + eb, eb + ea);
  }

  lemma StepCommutes(offset: int, m: Matcher)
    ensures Commutes(Step(offset, m))
  {
    forall r: StatsResult, a: Commit, b: Commit
      ensures Step(offset, m)(Step(offset, m)(r, a), b) == Step(offset, m)(Step(offset, m)(r, b), a)
    {
      ProcessCommitCommute(r, a, b, offset, m);
    }
  }

  /** The order in which the log yields the commits does not matter: any
      permutation of a history leaves the same result. */
  lemma FillCommitsPermutation(r: StatsResult, cs1: seq<Commit>, cs2: seq<Commit>, offset: int, m: Matcher)
    requires multiset(cs1) == multiset(cs2)
    ensures FillCommits(r, cs1, offset, m) == FillCommits(r, cs2, offset, m)
  {
    StepCommutes(offset, m);
    FoldPermutation(Step(offset, m), r, cs1, cs2);
  }
}
