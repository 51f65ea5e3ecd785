/** The watch list of internal/config/configuration.go: the dotfile holds one
    repository path per line; reading splits it into lines the way
    `bufio.ScanLines` does, writing joins the list with newlines, and new
    paths are merged in without duplicating those already listed. File
    access is left out: the file is its content, a string. */
module Config {
  import opened Text

  /** `sliceContains`: some element of the slice equals the value. */
  function SliceContains(slice: seq<string>, value: string): (found: bool)
    ensures found <==> value in slice
    decreases |slice|
  {
    if |slice| == 0 then false
    else if slice[0] == value then true
    else
      var rest := SliceContains(slice[1..], value);
      assert value in slice <==> slice[0] == value || value in slice[1..];
      rest
  }

  predicate NoDuplicates(s: seq<string>)
  {
    forall i, j :: 0 <= i < j < |s| ==> s[i] != s[j]
  }

  /** `joinSlices`: appends, in order, every element of `added`
      not already present; the check runs against the growing list, so a
      path repeated in `added` is appended once. */
  function JoinSlices(added: seq<string>, existing: seq<string>): (r: seq<string>)
    ensures existing <= r
    ensures |r| <= |existing| + |added|
    ensures forall x :: x in added ==> x in r
    ensures forall x :: x in r ==> x in existing || x in added
    decreases |added|
  {
    if |added| == 0 then existing
    else
      var grown := if SliceContains(existing, added[0]) then existing else existing + [added[0]];
      var r := JoinSlices(added[1..], grown);
      assert added[0] in grown;
      assert forall x :: x in added ==> x == added[0] || x in added[1..];
      r
  }

  /** Reference definition of what `joinSlices` appends: the elements of
      `added` not in `known`, each at its first occurrence, in order. */
  function Fresh(added: seq<string>, known: set<string>): seq<string>
    decreases |added|
  {
    if |added| == 0 then []
    else if added[0] in known then Fresh(added[1..], known)
    else [added[0]] + Fresh(added[1..], known + {added[0]})
  }

  function Elements(s: seq<string>): set<string>
  {
    set x | x in s
  }

  /** The merged list is the existing list followed by the fresh paths, in
      the order of their first occurrence in `added`. */
  lemma {:induction false} JoinSlicesOrder(added: seq<string>, existing: seq<string>)
    ensures JoinSlices(added, existing) == existing + Fresh(added, Elements(existing))
    decreases |added|
  {
    if |added| == 0 {
      assert existing + [] == existing;
    } else {
      var a := added[0];
      var grown := JoinSlicesStep(added, existing);
      JoinSlicesOrder(added[1..], grown);
      if a !in existing {
        assert Elements(grown) == Elements(existing) + {a};
        Associative(existing, [a], Fresh(added[1..], Elements(grown)));
      }
    }
  }

  /** One step of `joinSlices`. */
  lemma JoinSlicesStep(added: seq<string>, existing: seq<string>) returns (grown: seq<string>)
    requires |added| > 0
    ensures grown == if added[0] in existing then existing else existing + [added[0]]
    ensures JoinSlices(added, existing) == JoinSlices(added[1..], grown)
  {
    grown := if added[0] in existing then existing else existing + [added[0]];
  }

  /** A list without duplicates stays without duplicates. */
  lemma {:induction false} JoinSlicesNoDuplicates(added: seq<string>, existing: seq<string>)
    requires NoDuplicates(existing)
    ensures NoDuplicates(JoinSlices(added, existing))
    decreases |added|
  {
    if |added| > 0 {
      var grown := if SliceContains(existing, added[0]) then existing else existing + [added[0]];
      JoinSlicesNoDuplicates(added[1..], grown);
    }
  }

  /** When every element of `added` is already listed, nothing changes. */
  lemma {:induction false} JoinSlicesCovered(added: seq<string>, existing: seq<string>)
    requires forall x :: x in added ==> x in existing
    ensures JoinSlices(added, existing) == existing
    decreases |added|
  {
    if |added| > 0 {
      assert added[0] in existing;
      assert forall x :: x in added[1..] ==> x in added;
      JoinSlicesCovered(added[1..], existing);
    }
  }

  /** Merging the same paths a second time changes nothing. */
  lemma JoinSlicesIdempotent(added: seq<string>, existing: seq<string>)
    ensures JoinSlices(added, JoinSlices(added, existing)) == JoinSlices(added, existing)
  {
    JoinSlicesCovered(added, JoinSlices(added, existing));
  }

  /** `bufio.ScanLines` removes one trailing carriage return from a line. */
  function DropCR(line: string): (t: string)
    ensures HasSuffix(line, "\r") ==> t + "\r" == line
    ensures !HasSuffix(line, "\r") ==> t == line
  {
    TrimSuffix(line, "\r")
  }

  /** The lines a `bufio.Scanner` with `ScanLines` yields: the pieces between
      newlines, each without a trailing carriage return, and no final empty
      piece after a last newline. */
  function ScanLines(content: string): (lines: seq<string>)
    ensures forall i :: 0 <= i < |lines| ==> '\n' !in lines[i]
    ensures content == "" ==> lines == []
  {
    var parts := Split(content, '\n');
    var kept := if parts[|parts| - 1] == "" then parts[..|parts| - 1] else parts;
    seq(|kept|, i requires 0 <= i < |kept| => DropCR(kept[i]))
  }

  /** `dumpStringsSliceToFile`: the lines joined with newlines. */
  function DumpContent(lines: seq<string>): string
  {
    Join(lines, "\n")
  }

  /** Lines that survive a write and a read: no newline inside, no trailing
      carriage return, and a non-empty last line. */
  predicate Clean(lines: seq<string>)
  {
    (forall i :: 0 <= i < |lines| ==> '\n' !in lines[i] && !HasSuffix(lines[i], "\r"))
    && (|lines| == 0 || lines[|lines| - 1] != "")
  }

  /** When the last piece is non-empty and no piece ends with a carriage
      return, the lines read are the pieces. */
  lemma ScanLinesOf(content: string, parts: seq<string>)
    requires parts == Split(content, '\n')
    requires parts[|parts| - 1] != ""
    requires forall i :: 0 <= i < |parts| ==> !HasSuffix(parts[i], "\r")
    ensures ScanLines(content) == parts
  {
    KeepsClean(parts);
  }

  /** Reading back what was written gives the same lines. */
  lemma ReadWritten(lines: seq<string>)
    requires Clean(lines)
    ensures ScanLines(DumpContent(lines)) == lines
  {
    if |lines| > 0 {
      SplitJoin(lines, '\n');
      ScanLinesOf(DumpContent(lines), lines);
    }
  }

  /** A final newline ends the last line rather than starting an empty one:
      content that does not already end with a newline reads the same with
      one appended. */
  lemma TrailingNewline(content: string)
    requires content != "" && content[|content| - 1] != '\n'
    ensures ScanLines(content + "\n") == ScanLines(content)
  {
    var parts := Split(content, '\n');
    LastPieceNonEmpty(content, parts);
    ScanLinesKept(content, parts);
    SplitTrailingSeparator(content, '\n');
    assert (parts + [""])[..|parts|] == parts;
    ScanLinesKept(content + "\n", parts);
  }

  /** Content that is not empty and does not end with a newline has a
      non-empty last piece. */
  lemma LastPieceNonEmpty(content: string, parts: seq<string>)
    requires content != "" && content[|content| - 1] != '\n'
    requires parts == Split(content, '\n')
    ensures parts[|parts| - 1] != ""
  {
    JoinSplit(content, '\n');
    JoinLastEmpty(parts, '\n');
  }

  /** The lines read are the kept pieces without their carriage returns. */
  lemma ScanLinesKept(content: string, kept: seq<string>)
    requires Split(content, '\n')[|Split(content, '\n')| - 1] == "" ==>
      kept == Split(content, '\n')[..|Split(content, '\n')| - 1]
    requires Split(content, '\n')[|Split(content, '\n')| - 1] != "" ==>
      kept == Split(content, '\n')
    ensures ScanLines(content) == seq(|kept|, i requires 0 <= i < |kept| => DropCR(kept[i]))
  {
  }

  /** Lines ended by `"\r\n"` read as the lines without the carriage returns. */
  lemma CarriageReturns(lines: seq<string>)
    requires Clean(lines) && |lines| > 0
    ensures ScanLines(Join(seq(|lines|, i requires 0 <= i < |lines| => lines[i] + "\r"), "\n")) == lines
  {
    var ended := seq(|lines|, i requires 0 <= i < |lines| => lines[i] + "\r");
    forall i | 0 <= i < |ended|
      ensures '\n' !in ended[i] && DropCR(ended[i]) == lines[i]
    {
      EndedLine(lines[i]);
    }
    SplitJoin(ended, '\n');
    assert ended[|ended| - 1] != "";
  }

  /** One line of a file written with `"\r\n"` line ends. */
  lemma EndedLine(line: string)
    requires '\n' !in line
    ensures '\n' !in line + "\r" && DropCR(line + "\r") == line
  {
    assert (line + "\r")[|line|..] == "\r";
  }

  /** Joining pieces whose last one is empty gives the empty string or a
      string ending with the separator. */
  lemma {:induction false} JoinLastEmpty(parts: seq<string>, sep: char)
    requires |parts| >= 1
    ensures parts[|parts| - 1] == "" ==>
      Join(parts, [sep]) == "" || Join(parts, [sep])[|Join(parts, [sep])| - 1] == sep
    decreases |parts|
  {
    if |parts| > 1 {
      var rest := parts[1..];
      JoinLastEmpty(rest, sep);
      var j, tail := Join(parts, [sep]), Join(rest, [sep]);
      assert j == parts[0] + [sep] + tail;
      if tail != "" {
        assert j[|j| - 1] == tail[|tail| - 1];
      }
    }
  }

  /** Lines without a trailing carriage return are read as they are. */
  lemma KeepsClean(lines: seq<string>)
    requires forall i :: 0 <= i < |lines| ==> !HasSuffix(lines[i], "\r")
    ensures seq(|lines|, i requires 0 <= i < |lines| => DropCR(lines[i])) == lines
  {
  }

  /** A character absent from the string is absent from every piece. */
  lemma {:induction false} SplitAvoids(s: string, sep: char, c: char)
    requires c !in s
    ensures forall k :: 0 <= k < |Split(s, sep)| ==> c !in Split(s, sep)[k]
    decreases |s|
  {
    var i := IndexOf(s, sep);
    if i < |s| {
      var tail := SplitFirst(s, sep, i);
      assert c !in s[..i] && c !in tail;
      SplitAvoids(tail, sep, c);
      AvoidsCons(s[..i], Split(tail, sep), c);
    }
  }

  lemma AvoidsCons(head: string, rest: seq<string>, c: char)
    requires c !in head
    requires forall k :: 0 <= k < |rest| ==> c !in rest[k]
    ensures forall k :: 0 <= k < |[head] + rest| ==> c !in ([head] + rest)[k]
  {
    forall k | 0 <= k < |[head] + rest|
      ensures c !in ([head] + rest)[k]
    {
      if k > 0 {
        assert ([head] + rest)[k] == rest[k - 1];
      }
    }
  }

  /** A string without carriage returns does not end with one. */
  lemma NoCarriageReturn(t: string)
    requires '\r' !in t
    ensures !HasSuffix(t, "\r")
  {
    if |t| > 0 {
      assert t[|t| - 1..] == [t[|t| - 1]];
    }
  }

  /** Writing back what was read gives the same content, for content
      without carriage returns that does not end with a newline. */
  lemma WrittenRead(content: string)
    requires '\r' !in content
    requires content == "" || content[|content| - 1] != '\n'
    ensures DumpContent(ScanLines(content)) == content
  {
    if content != "" {
      var parts := Split(content, '\n');
      JoinSplit(content, '\n');
      JoinLastEmpty(parts, '\n');
      SplitAvoids(content, '\n', '\r');
      forall i | 0 <= i < |parts|
        ensures !HasSuffix(parts[i], "\r")
      {
        NoCarriageReturn(parts[i]);
      }
      ScanLinesOf(content, parts);
      JoinSplit(content, '\n');
    }
  }

  /** `GetFolders` over the dotfile's content: the current directory alone
      when the list is empty or the current directory is itself a
      repository, the stored lines otherwise. */
  function GetFolders(content: string, cwdIsRepo: bool): (folders: seq<string>)
    ensures |folders| >= 1
    ensures cwdIsRepo || content == "" ==> folders == ["."]
    ensures !cwdIsRepo && ScanLines(content) != [] ==> folders == ScanLines(content)
  {
    var repos := ScanLines(content);
    if |repos| == 0 || cwdIsRepo then ["."] else repos
  }

  /** A stored non-empty clean list is returned as written. */
  lemma GetFoldersStored(lines: seq<string>)
    requires Clean(lines) && |lines| > 0
    ensures GetFolders(DumpContent(lines), false) == lines
  {
    ReadWritten(lines);
  }

  /** `addNewSliceElementsToFile`: reads the stored list, merges the new
      paths in and writes the merged list back. */
  function AddFilesToScan(content: string, files: seq<string>): (written: string)
  {
    DumpContent(JoinSlices(files, ScanLines(content)))
  }

  /** The written list reads back as the stored list followed by the new
      paths that were not yet in it. */
  lemma AddFilesReadBack(content: string, files: seq<string>)
    requires Clean(JoinSlices(files, ScanLines(content)))
    ensures var stored := ScanLines(content);
      var after := ScanLines(AddFilesToScan(content, files));
      && stored <= after
      && (forall x :: x in files ==> x in after)
      && (forall x :: x in after ==> x in stored || x in files)
  {
    ReadWritten(JoinSlices(files, ScanLines(content)));
  }

  /** Adding the same paths twice writes the same file as adding them once. */
  lemma AddFilesIdempotent(content: string, files: seq<string>)
    requires Clean(JoinSlices(files, ScanLines(content)))
    ensures AddFilesToScan(AddFilesToScan(content, files), files) == AddFilesToScan(content, files)
  {
    ReadWritten(JoinSlices(files, ScanLines(content)));
    JoinSlicesIdempotent(files, ScanLines(content));
  }
}
