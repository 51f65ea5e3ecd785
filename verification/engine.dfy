/** `processRepositories`, `Stats` and `Launch` (internal/scanner/stats.go):
    every folder of a result is scanned in turn, and a launch makes one
    result for all folders or one per folder. */
module Engine {
  import opened Wrappers
  import opened Text
  import opened Date
  import opened Folds
  import opened Interfaces
  import opened Window
  import opened Filters
  import opened Tally

  /** `git.PlainOpen` then `repo.Log` for one folder: not a repository, or
      the commits the log yields. */
  datatype History = Unopenable | Log(commits: seq<Commit>)

  /** go-git, kept abstract: the history of a folder between two instants. */
  type LogSource = (string, int, int) -> History

  /** What the scan reads from outside the engine: the repositories and the
      regular-expression engine. */
  datatype Env = Env(log: LogSource, matches: Matcher)

  /** The history `fillCommits` reads for `path`, bounded by the window. */
  function HistoryOf(r: StatsResult, path: string, env: Env): History
  {
    env.log(path, r.beginOfScan, r.endOfScan)
  }

  predicate Openable(r: StatsResult, path: string, env: Env)
  {
    HistoryOf(r, path, env).Log?
  }

  /** `fillCommits`: a folder that is not a repository yields an error and
      changes nothing; otherwise every commit of its log goes through the
      callback, with the offset of the end of the scan. */
  function FillFolder(r: StatsResult, path: string, env: Env): (res: (StatsResult, Option<Error>))
    ensures res.1.Some? <==> !Openable(r, path, env)
    ensures res.1.Some? ==> res.1 == Some(NotARepository(path)) && res.0 == r
    ensures SameSetup(res.0, r)
  {
    match HistoryOf(r, path, env)
    case Unopenable => (r, Some(NotARepository(path)))
    case Log(cs) =>
      FillCommitsSetup(r, cs, CalcOffset(r.endOfScan), env.matches);
      (FillCommits(r, cs, CalcOffset(r.endOfScan), env.matches), None)
  }

  /** The folder loop of `processRepositories`: a failing folder does not
      stop the loop, and the error kept is that of the last failing folder. */
  function FillFolders(r: StatsResult, paths: seq<string>, env: Env, err: Option<Error>): (res: (StatsResult, Option<Error>))
    ensures SameSetup(res.0, r)
    decreases |paths|
  {
    if |paths| == 0 then (r, err)
    else
      var step := FillFolder(r, paths[0], env);
      FillFolders(step.0, paths[1..], env, if step.1.Some? then step.1 else err)
  }

  /** The commits of every openable folder, folder after folder. */
  function Gathered(r: StatsResult, paths: seq<string>, env: Env): seq<Commit>
    decreases |paths|
  {
    if |paths| == 0 then []
    else
      var rest := Gathered(r, paths[1..], env);
      match HistoryOf(r, paths[0], env)
      case Unopenable => rest
      case Log(cs) => cs + rest
  }

  lemma {:induction false} GatheredSetup(r1: StatsResult, r: StatsResult, paths: seq<string>, env: Env)
    requires SameSetup(r1, r)
    ensures Gathered(r1, paths, env) == Gathered(r, paths, env)
    decreases |paths|
  {
    if |paths| > 0 {
      GatheredSetup(r1, r, paths[1..], env);
    }
  }

  /** Scanning several folders is the callback over all their commits at
      once: the folders' histories are simply concatenated. */
  lemma {:induction false} FillFoldersCommits(r: StatsResult, paths: seq<string>, env: Env, err: Option<Error>)
    ensures FillFolders(r, paths, env, err).0 ==
      FillCommits(r, Gathered(r, paths, env), CalcOffset(r.endOfScan), env.matches)
    decreases |paths|
  {
    var offset := CalcOffset(r.endOfScan);
    if |paths| > 0 {
      var step := FillFolder(r, paths[0], env);
      var r1 := step.0;
      FillFoldersCommits(r1, paths[1..], env, if step.1.Some? then step.1 else err);
      GatheredSetup(r1, r, paths[1..], env);
      var rest := Gathered(r, paths[1..], env);
      match HistoryOf(r, paths[0], env)
      case Unopenable =>
      case Log(cs) =>
        FoldAppend(Step(offset, env.matches), r, cs, rest);
    } else {
      assert FillCommits(r, [], offset, env.matches) == r;
    }
  }

  /** The position of the last folder that does not open, or -1 when all do. */
  function LastFailing(r: StatsResult, paths: seq<string>, env: Env): (i: int)
    ensures -1 <= i < |paths|
    ensures i == -1 <==> forall j :: 0 <= j < |paths| ==> Openable(r, paths[j], env)
    ensures i >= 0 ==> !Openable(r, paths[i], env)
    ensures forall j :: i < j < |paths| ==> Openable(r, paths[j], env)
    decreases |paths|
  {
    if |paths| == 0 then -1
    else if !Openable(r, paths[|paths| - 1], env) then |paths| - 1
    else
      var front := paths[..|paths| - 1];
      var i := LastFailing(r, front, env);
      assert forall j :: 0 <= j < |front| ==> front[j] == paths[j];
      i
  }

  /** When every folder opens, the loop keeps the error it started with. */
  lemma {:induction false} FillFoldersAllOpen(r: StatsResult, paths: seq<string>, env: Env, err: Option<Error>)
    requires forall j :: 0 <= j < |paths| ==> Openable(r, paths[j], env)
    ensures FillFolders(r, paths, env, err).1 == err
    decreases |paths|
  {
    if |paths| > 0 {
      var step := FillFolder(r, paths[0], env);
      assert forall p :: Openable(step.0, p, env) == Openable(r, p, env);
      assert forall j :: 0 <= j < |paths| - 1 ==> paths[1..][j] == paths[j + 1];
      FillFoldersAllOpen(step.0, paths[1..], env, err);
    }
  }

  /** Otherwise the loop ends with the error of the last folder that does not open. */
  lemma {:induction false} FillFoldersLastError(r: StatsResult, paths: seq<string>, env: Env, err: Option<Error>, i: int)
    requires 0 <= i < |paths| && !Openable(r, paths[i], env)
    requires forall j :: i < j < |paths| ==> Openable(r, paths[j], env)
    ensures FillFolders(r, paths, env, err).1 == Some(NotARepository(paths[i]))
    decreases |paths|
  {
    var step := FillFolder(r, paths[0], env);
    var err1 := if step.1.Some? then step.1 else err;
    assert forall p :: Openable(step.0, p, env) == Openable(r, p, env);
    assert forall j :: 0 <= j < |paths| - 1 ==> paths[1..][j] == paths[j + 1];
    if i == 0 {
      FillFoldersAllOpen(step.0, paths[1..], env, err1);
    } else {
      FillFoldersLastError(step.0, paths[1..], env, err1, i - 1);
    }
  }

  /** `processRepositories`: seeds `Commits` with the keys `1..DurationInDays`,
      then scans every folder of the options. */
  function ProcessRepositories(r: StatsResult, env: Env): (StatsResult, Option<Error>)
  {
    FillFolders(r.(commits := SeedCommits(r.durationInDays)), r.options.folders, env, None)
  }

  /** `Stats`: the error of the scan replaces the result's error, or, when
      every folder was scanned, the folders are recorded joined by commas.
      An error already on the result (from the delta) is kept in that case. */
  function Stats(r: StatsResult, env: Env): (p: StatsResult)
    ensures p.options == r.options && p.beginOfScan == r.beginOfScan && p.endOfScan == r.endOfScan
    ensures p.durationInDays == r.durationInDays
  {
    var res := ProcessRepositories(r, env);
    if res.1.Some? then res.0.(error := res.1)
    else res.0.(folder := Join(res.0.options.folders, ","))
  }

  /** The error `Stats` leaves: that of the last folder that does not open;
      when all open, the result's own error, and the folders joined by commas. */
  lemma StatsError(r: StatsResult, env: Env)
    ensures var p := Stats(r, env);
      var i := LastFailing(r, r.options.folders, env);
      && (i == -1 ==> p.error == r.error && p.folder == Join(r.options.folders, ","))
      && (i >= 0 ==> p.error == Some(NotARepository(r.options.folders[i])) && p.folder == r.folder)
  {
    var seeded := r.(commits := SeedCommits(r.durationInDays));
    var i := LastFailing(r, r.options.folders, env);
    assert forall p :: Openable(seeded, p, env) == Openable(r, p, env);
    if i == -1 {
      FillFoldersAllOpen(seeded, r.options.folders, env, None);
    } else {
      FillFoldersLastError(seeded, r.options.folders, env, None, i);
    }
  }

  /** What a scanned result holds: `Commits` counts, per grid key, the
      counted commits of all openable folders; the hour and weekday
      histograms count them by hour and by weekday; and the ledger is
      replayed with the calls of every commit that reached it. */
  lemma StatsContents(r: StatsResult, env: Env, h: int, d: int, k: int)
    requires 0 <= h < 24 && 0 <= d < 7
    ensures var p := Stats(r, env);
      var seeded := r.(commits := SeedCommits(r.durationInDays));
      var cs := Gathered(r, r.options.folders, env);
      var offset := CalcOffset(r.endOfScan);
      var counted := CountedCommits(seeded, cs, offset);
      && p.hoursCommits[h] == r.hoursCommits[h] + HourCount(counted, h)
      && p.dayCommits[d] == r.dayCommits[d] + WeekdayCount(counted, d)
      && Get(p.commits, k) == Get(SeedCommits(r.durationInDays), k) + KeyCount(seeded, counted, offset, k)
      && p.authorsEditions ==
           Replay(r.authorsEditions, AllEdits(seeded, ReachingCommits(seeded, cs, offset), env.matches))
  {
    var seeded := r.(commits := SeedCommits(r.durationInDays));
    var cs := Gathered(seeded, r.options.folders, env);
    GatheredSetup(seeded, r, r.options.folders, env);
    FillFoldersCommits(seeded, r.options.folders, env, None);
    FillHistograms(seeded, cs, CalcOffset(r.endOfScan), env.matches, h, d, k);
    FillLedger(seeded, cs, CalcOffset(r.endOfScan), env.matches);
  }

  /** A result starting with empty histograms comes out of `Stats` with
      `Commits` keyed exactly by the grid and three equal totals. */
  lemma StatsTallied(r: StatsResult, env: Env)
    requires Sum(r.hoursCommits) == 0 && Sum(r.dayCommits) == 0
    ensures Tallied(Stats(r, env))
  {
    var seeded := r.(commits := SeedCommits(r.durationInDays));
    var cs := Gathered(seeded, r.options.folders, env);
    SeededTallied(seeded);
    FillFoldersCommits(seeded, r.options.folders, env, None);
    FillCommitsTallied(seeded, cs, CalcOffset(r.endOfScan), env.matches);
  }

  /** The options of a result: the launch options with the given folders. */
  function OptionsFor(opts: LaunchOptions, folders: seq<string>): StatsOptions
  {
    StatsOptions(opts.user, opts.durationInWeeks, folders, opts.delta, opts.patternToExclude, opts.patternToInclude)
  }

  /** One result: a fresh `StatsResult`, its window, then `Stats`. */
  function Analyze(opts: LaunchOptions, folders: seq<string>, now: int, cal: Calendar, env: Env): (a: StatsResult)
    ensures a.options == OptionsFor(opts, folders)
  {
    Stats(Populate(NewResult(OptionsFor(opts, folders)), opts, now, cal), env)
  }

  /** `Launch`: in merge mode a single result over all folders; otherwise one
      result per folder, in the order of the folders. */
  function Launch(opts: LaunchOptions, now: int, cal: Calendar, env: Env): (results: seq<StatsResult>)
    ensures opts.merge ==> |results| == 1 && results[0].options == OptionsFor(opts, opts.folders)
    ensures !opts.merge ==> |results| == |opts.folders|
    ensures !opts.merge ==> forall i :: 0 <= i < |results| ==>
      results[i].options == OptionsFor(opts, [opts.folders[i]])
  {
    if opts.merge then [Analyze(opts, opts.folders, now, cal, env)]
    else seq(|opts.folders|, i requires 0 <= i < |opts.folders| => Analyze(opts, [opts.folders[i]], now, cal, env))
  }

  /** With a single folder, merging or not makes no difference. */
  lemma LaunchSingleFolder(opts: LaunchOptions, now: int, cal: Calendar, env: Env)
    requires |opts.folders| == 1
    ensures Launch(opts.(merge := true), now, cal, env) == Launch(opts.(merge := false), now, cal, env)
  {
    assert [opts.folders[0]] == opts.folders;
  }

  /** Every result of a launch satisfies the histogram invariant. */
  lemma LaunchTallied(opts: LaunchOptions, now: int, cal: Calendar, env: Env)
    ensures forall r :: r in Launch(opts, now, cal, env) ==> Tallied(r)
  {
    forall folders: seq<string>
      ensures Tallied(Analyze(opts, folders, now, cal, env))
    {
      var r := Populate(NewResult(OptionsFor(opts, folders)), opts, now, cal);
      ZeroSums(r.hoursCommits);
      ZeroSums(r.dayCommits);
      StatsTallied(r, env);
    }
  }

  lemma {:induction false} ZeroSums(s: seq<int>)
    requires forall i :: 0 <= i < |s| ==> s[i] == 0
    ensures Sum(s) == 0
    decreases |s|
  {
    if |s| > 0 {
      ZeroSums(s[1..]);
    }
  }
}
