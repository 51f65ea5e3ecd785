/** Record shapes of `internal/interfaces` and the contribution ledger
    (`AuthorsStats`), modelled as a sequential map from author name to totals. */
module Interfaces {
  import opened Wrappers
  import opened Date
  import opened Folds

  datatype Contribution = Contribution(additions: int, deletions: int)

  function Plus(a: Contribution, b: Contribution): Contribution
  {
    Contribution(a.additions + b.additions, a.deletions + b.deletions)
  }

  /** Per-author totals, keyed by the exact author name (no normalisation). */
  type AuthorsStats = map<string, Contribution>

  /** The entry for `user`, or zero totals when there is none (`LoadOrStore`'s default). */
  function Lookup(a: AuthorsStats, user: string): Contribution
  {
    if user in a then a[user] else Contribution(0, 0)
  }

  /** `AuthorsStats.AddContributions`: adds the deltas to `user`'s totals,
      starting from zero, and returns the stored value. */
  function AddContributions(a: AuthorsStats, user: string, additions: int, deletions: int): (r: (AuthorsStats, Contribution))
    ensures r.0.Keys == a.Keys + {user}
    ensures r.0[user] == Plus(Lookup(a, user), Contribution(additions, deletions))
    ensures r.1 == r.0[user]
  {
    var updated := Plus(Lookup(a, user), Contribution(additions, deletions));
    (a[user := updated], updated)
  }

  /** `AddContributions` leaves every other author's entry as it was. */
  lemma AddContributionsFrame(a: AuthorsStats, user: string, additions: int, deletions: int, other: string)
    requires other != user
    ensures var r := AddContributions(a, user, additions, deletions).0;
      (other in r <==> other in a) && Lookup(r, other) == Lookup(a, other)
  {
  }

  /** One `AddContributions(user, additions, deletions)` call. */
  datatype Edit = Edit(user: string, additions: int, deletions: int)

  /** The ledger after one call. */
  function ApplyEdit(a: AuthorsStats, e: Edit): AuthorsStats
  {
    AddContributions(a, e.user, e.additions, e.deletions).0
  }

  /** The ledger after the calls `edits`, made one after another. */
  function Replay(a: AuthorsStats, edits: seq<Edit>): AuthorsStats
  {
    Fold(ApplyEdit, a, edits)
  }

  /** The part of one call's deltas that goes to `user`. */
  function Share(user: string, e: Edit): Contribution
  {
    if e.user == user then Contribution(e.additions, e.deletions) else Contribution(0, 0)
  }

  /** Independent reference: the sum of the deltas addressed to `user`. */
  function TotalFor(user: string, edits: seq<Edit>): Contribution
    decreases |edits|
  {
    if |edits| == 0 then Contribution(0, 0)
    else Plus(Share(user, edits[0]), TotalFor(user, edits[1..]))
  }

  function Users(edits: seq<Edit>): set<string>
  {
    set i | 0 <= i < |edits| :: edits[i].user
  }

  /** After replaying a sequence of calls, every author's totals are their
      previous totals (zero if absent) plus the sum of the deltas addressed to
      them. */
  lemma {:induction false} ReplayTotals(a: AuthorsStats, edits: seq<Edit>, u: string)
    ensures Lookup(Replay(a, edits), u) == Plus(Lookup(a, u), TotalFor(u, edits))
    decreases |edits|
  {
    if |edits| == 0 {
      assert Replay(a, edits) == a;
    } else {
      var e := edits[0];
      var a1 := ReplayCons(a, edits);
      ReplayTotals(a1, edits[1..], u);
      LookupAfterEdit(a, e, u);
      PlusAssociative(Lookup(a, u), Share(u, e), TotalFor(u, edits[1..]));
    }
  }

  /** Replaying a non-empty sequence applies its first call first. */
  lemma ReplayCons(a: AuthorsStats, edits: seq<Edit>) returns (a1: AuthorsStats)
    requires |edits| > 0
    ensures a1 == ApplyEdit(a, edits[0])
    ensures Replay(a, edits) == Replay(a1, edits[1..])
  {
    a1 := ApplyEdit(a, edits[0]);
  }

  lemma PlusAssociative(x: Contribution, y: Contribution, z: Contribution)
    ensures Plus(Plus(x, y), z) == Plus(x, Plus(y, z))
  {
  }

  /** One call adds its share to every author's totals. */
  lemma LookupAfterEdit(a: AuthorsStats, e: Edit, u: string)
    ensures Lookup(ApplyEdit(a, e), u) == Plus(Lookup(a, u), Share(u, e))
    ensures u in ApplyEdit(a, e) <==> u in a || u == e.user
  {
  }

  /** Replaying adds exactly the called authors as keys, even for zero deltas. */
  lemma {:induction false} ReplayKeys(a: AuthorsStats, edits: seq<Edit>)
    ensures Replay(a, edits).Keys == a.Keys + Users(edits)
    decreases |edits|
  {
    if |edits| > 0 {
      var e := edits[0];
      ReplayKeys(ApplyEdit(a, e), edits[1..]);
      assert Users(edits) == {e.user} + Users(edits[1..]) by {
        forall u | u in Users(edits) ensures u in {e.user} + Users(edits[1..]) {
          var i :| 0 <= i < |edits| && edits[i].user == u;
          if i > 0 {
            assert edits[1..][i - 1].user == u;
          }
        }
        forall u | u in Users(edits[1..]) ensures u in Users(edits) {
          var i :| 0 <= i < |edits[1..]| && edits[1..][i].user == u;
          assert edits[i + 1].user == u;
        }
      }
    }
  }

  /** Two calls in either order leave the same ledger. */
  lemma AddContributionsCommute(a: AuthorsStats, x: Edit, y: Edit)
    ensures ApplyEdit(ApplyEdit(a, x), y) == ApplyEdit(ApplyEdit(a, y), x)
  {
    var vx, vy := Plus(Lookup(a, x.user), Share(x.user, x)), Plus(Lookup(a, y.user), Share(y.user, y));
    if x.user == y.user {
      var both := Plus(Plus(Lookup(a, x.user), Share(x.user, x)), Share(x.user, y));
      assert ApplyEdit(ApplyEdit(a, x), y) == a[x.user := both];
      assert ApplyEdit(ApplyEdit(a, y), x) == a[x.user := both];
    } else {
      assert ApplyEdit(ApplyEdit(a, x), y) == a[x.user := vx][y.user := vy];
      assert ApplyEdit(ApplyEdit(a, y), x) == a[y.user := vy][x.user := vx];
      MapUpdatesCommute(a, x.user, vx, y.user, vy);
    }
  }

  /** Updates of two different keys commute. */
  lemma MapUpdatesCommute(a: AuthorsStats, k1: string, v1: Contribution, k2: string, v2: Contribution)
    requires k1 != k2
    ensures a[k1 := v1][k2 := v2] == a[k2 := v2][k1 := v1]
  {
  }

  lemma ApplyEditCommutes()
    ensures Commutes(ApplyEdit)
  {
    forall a: AuthorsStats, x: Edit, y: Edit
      ensures ApplyEdit(ApplyEdit(a, x), y) == ApplyEdit(ApplyEdit(a, y), x)
    {
      AddContributionsCommute(a, x, y);
    }
  }

  /** The ledger does not depend on the order of the calls: any permutation of
      the same calls leaves the same totals for every author. */
  lemma ReplayPermutation(a: AuthorsStats, e1: seq<Edit>, e2: seq<Edit>)
    requires multiset(e1) == multiset(e2)
    ensures Replay(a, e1) == Replay(a, e2)
  {
    ApplyEditCommutes();
    FoldPermutation(ApplyEdit, a, e1, e2);
  }

  /** The error values the engine records on a result. */
  datatype Error =
    | DeltaNotANumber        // "error delta is not a number"
    | DeltaFormat            // "invalid delta value use the format: <int>[y/m/w/d]"
    | NotARepository(path: string)

  /** `LaunchOptions`, without the presentation-only `Dashboard` flag. */
  datatype LaunchOptions = LaunchOptions(
    user: Option<string>,
    durationInWeeks: int,
    folders: seq<string>,
    merge: bool,
    delta: string,
    patternToExclude: seq<string>,
    patternToInclude: seq<string>)

  /** `StatsOptions`, without the presentation-only `Silent` flag. */
  datatype StatsOptions = StatsOptions(
    emailOrUsername: Option<string>,
    durationParamInWeeks: int,
    folders: seq<string>,
    delta: string,
    patternToExclude: seq<string>,
    patternToInclude: seq<string>)

  /** Go's `[24]int` and `[7]int`: sequences of fixed length. */
  type HourCounts = s: seq<int> | |s| == 24 witness seq(24, _ => 0)
  type WeekdayCounts = s: seq<int> | |s| == 7 witness seq(7, _ => 0)

  /** `StatsResult`: instants as seconds, `Commits` as a map, and the two
      fixed-size arrays as sequences of length 24 and 7. */
  datatype StatsResult = StatsResult(
    options: StatsOptions,
    beginOfScan: int,
    endOfScan: int,
    durationInDays: int,
    folder: string,
    commits: map<int, int>,
    hoursCommits: HourCounts,
    dayCommits: WeekdayCounts,
    authorsEditions: AuthorsStats,
    error: Option<Error>)

  /** `&StatsResult{Options: options}`: every other field at Go's zero value. */
  function NewResult(options: StatsOptions): (r: StatsResult)
    ensures r.options == options && r.error.None?
    ensures r.beginOfScan == ZeroTime && r.endOfScan == ZeroTime && r.durationInDays == 0
    ensures forall h :: 0 <= h < 24 ==> r.hoursCommits[h] == 0
    ensures forall d :: 0 <= d < 7 ==> r.dayCommits[d] == 0
    ensures r.commits == map[] && r.authorsEditions == map[]
  {
    StatsResult(options, ZeroTime, ZeroTime, 0, "", map[], seq(24, _ => 0), seq(7, _ => 0), map[], None)
  }
}
