/** The two filters of the commit callback in `fillCommits`
    (internal/scanner/stats.go): which commits count for the requested
    authors, and which file statistics of a commit reach the ledger. */
module Filters {
  import opened Wrappers
  import opened Text
  import opened Interfaces

  /** `c.Stats()` entry: a path and its line counts. */
  datatype FileStat = FileStat(name: string, addition: int, deletion: int)

  /** A commit as the engine sees it: its author, its author date and its
      per-file statistics. */
  datatype Commit = Commit(authorName: string, authorEmail: string, when: int, stats: seq<FileStat>)

  /** `regexp.Compile(pattern).MatchString(path)`, kept abstract. */
  type Matcher = (string, string) -> bool

  /** One entry of the author list matches a commit: an entry holding `@`
      is compared with the e-mail, and every entry, `@` or not, with the name. */
  predicate EntryMatches(u: string, c: Commit)
  {
    ('@' in u && c.authorEmail == u) || c.authorName == u
  }

  /** The `for _, u := range users` loop: stops at the first matching entry. */
  function FindUser(users: seq<string>, c: Commit): (found: bool)
    ensures found <==> exists i :: 0 <= i < |users| && EntryMatches(users[i], c)
  {
    if |users| == 0 then false
    else if '@' in users[0] && c.authorEmail == users[0] then true
    else if c.authorName == users[0] then true
    else
      var rest := FindUser(users[1..], c);
      assert forall i :: 0 < i < |users| ==> users[i] == users[1..][i - 1];
      rest
  }

  /** The entries of an author list: split on `,`, without trimming. */
  function Entries(list: string): seq<string>
  {
    Split(list, ',')
  }

  /** The author filter: no filter accepts every commit; otherwise the filter
      is split on `,`, without trimming, and some entry must match. */
  function AcceptsAuthor(emailOrUsername: Option<string>, c: Commit): (ok: bool)
    ensures emailOrUsername.None? ==> ok
    ensures emailOrUsername.Some? ==>
      (ok <==> exists i :: 0 <= i < |Entries(emailOrUsername.value)|
                 && EntryMatches(Entries(emailOrUsername.value)[i], c))
  {
    match emailOrUsername
    case None => true
    case Some(list) => FindUser(Entries(list), c)
  }

  /** A filter written as a comma-joined list of entries accepts a commit
      exactly when one of those entries matches it. */
  lemma AcceptsJoinedList(users: seq<string>, c: Commit)
    requires |users| >= 1
    requires forall i :: 0 <= i < |users| ==> ',' !in users[i]
    ensures AcceptsAuthor(Some(Join(users, ",")), c) <==>
      exists i :: 0 <= i < |users| && EntryMatches(users[i], c)
  {
    SplitJoin(users, ',');
  }

  /** An entry holding `@` still matches by author name. */
  lemma AtEntryMatchesName()
    ensures AcceptsAuthor(Some("a@b"), Commit("a@b", "x@y", 0, []))
  {
    AcceptsJoinedList(["a@b"], Commit("a@b", "x@y", 0, []));
  }

  /** Entries are not trimmed: in `"ann, bob"` the second entry is `" bob"`,
      which does not match the author `bob`. */
  lemma EntriesNotTrimmed(first: string, name: string, c: Commit)
    requires ',' !in first && ',' !in name
    requires c.authorName == name && c.authorEmail != " " + name
    requires !EntryMatches(first, c)
    ensures !AcceptsAuthor(Some(first + ", " + name), c)
  {
    var users := [first, " " + name];
    assert Join(users, ",") == first + "," + (" " + name) == first + ", " + name;
    assert ',' !in " " + name;
    AcceptsJoinedList(users, c);
    assert |users[1]| != |name|;
  }

  /** The exclude loop: true when some exclude pattern matches (the stat is
      dropped). */
  function ExcludeHit(patterns: seq<string>, name: string, m: Matcher): (hit: bool)
    ensures hit <==> exists i :: 0 <= i < |patterns| && m(patterns[i], name)
  {
    if |patterns| == 0 then false
    else if m(patterns[0], name) then true
    else
      var rest := ExcludeHit(patterns[1..], name, m);
      assert forall i :: 0 < i < |patterns| ==> patterns[i] == patterns[1..][i - 1];
      rest
  }

  /** The include loop: its body drops the stat when the pattern does not
      match and otherwise breaks, so it only ever looks at the first pattern. */
  function IncludeMiss(patterns: seq<string>, name: string, m: Matcher): bool
  {
    if |patterns| == 0 then false
    else if !m(patterns[0], name) then true
    else false
  }

  /** A file stat reaches the ledger when no exclude pattern matches it and
      either there is no include pattern or the first one matches. */
  function KeepStat(name: string, exc: seq<string>, inc: seq<string>, m: Matcher): (keep: bool)
    ensures keep <==>
      (forall i :: 0 <= i < |exc| ==> !m(exc[i], name))
      && (|inc| == 0 || m(inc[0], name))
  {
    !ExcludeHit(exc, name, m) && !IncludeMiss(inc, name, m)
  }

  /** Only the first include pattern matters: the others are never consulted. */
  lemma OnlyFirstInclude(name: string, exc: seq<string>, inc: seq<string>, rest: seq<string>, m: Matcher)
    requires |inc| >= 1
    ensures KeepStat(name, exc, inc, m) == KeepStat(name, exc, inc[..1] + rest, m)
  {
  }

  /** Exclusion wins over inclusion. */
  lemma ExcludeWins(name: string, exc: seq<string>, inc: seq<string>, m: Matcher, i: int)
    requires 0 <= i < |exc| && m(exc[i], name)
    ensures !KeepStat(name, exc, inc, m)
  {
  }

  /** The ledger calls one commit makes, in file order: one per kept stat,
      under the author's name. */
  function KeptEdits(author: string, stats: seq<FileStat>, exc: seq<string>, inc: seq<string>, m: Matcher): (edits: seq<Edit>)
    ensures |edits| <= |stats|
    ensures forall j :: 0 <= j < |edits| ==> edits[j].user == author
  {
    if |stats| == 0 then []
    else
      var s := stats[0];
      var rest := KeptEdits(author, stats[1..], exc, inc, m);
      if KeepStat(s.name, exc, inc, m) then [Edit(author, s.addition, s.deletion)] + rest
      else rest
  }

  /** Sum of the additions and deletions of the kept stats. */
  function KeptTotal(stats: seq<FileStat>, exc: seq<string>, inc: seq<string>, m: Matcher): Contribution
  {
    if |stats| == 0 then Contribution(0, 0)
    else
      var s := stats[0];
      var here := if KeepStat(s.name, exc, inc, m) then Contribution(s.addition, s.deletion) else Contribution(0, 0);
      Plus(here, KeptTotal(stats[1..], exc, inc, m))
  }

  /** A commit's calls add, to its author and to nobody else, the sum of the
      kept stats' line counts. */
  lemma {:induction false} KeptEditsTotal(author: string, stats: seq<FileStat>, exc: seq<string>, inc: seq<string>, m: Matcher, u: string)
    ensures TotalFor(u, KeptEdits(author, stats, exc, inc, m)) ==
      if u == author then KeptTotal(stats, exc, inc, m) else Contribution(0, 0)
  {
    if |stats| > 0 {
      var s := stats[0];
      var rest := KeptEdits(author, stats[1..], exc, inc, m);
      KeptEditsTotal(author, stats[1..], exc, inc, m, u);
      if KeepStat(s.name, exc, inc, m) {
        assert ([Edit(author, s.addition, s.deletion)] + rest)[1..] == rest;
      }
    }
  }
}
