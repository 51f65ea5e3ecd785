/** The Go standard-library string helpers the engine relies on
    (`strings.Index`, `strings.Split`, `strings.Join`, `strings.TrimSuffix`,
    `strconv.Atoi`, `strconv.Itoa`), on `seq<char>`. */
module Text {
  import opened Wrappers

  /** Position of the first `c` in `s`, or `|s|` when `s` has none. */
  function IndexOf(s: string, c: char): (i: nat)
    ensures i <= |s|
    ensures c !in s[..i]
    ensures i < |s| ==> s[i] == c
    ensures i == |s| <==> c !in s
  {
    if |s| == 0 then 0
    else if s[0] == c then 0
    else
      var j := IndexOf(s[1..], c);
      assert s[..j + 1] == [s[0]] + s[1..][..j];
      j + 1
  }

  /** The first occurrence of `c` in `a + [c] + b` is right after `a` when `a` has none. */
  lemma {:induction false} IndexOfAfter(a: string, c: char, b: string)
    requires c !in a
    ensures IndexOf(a + [c] + b, c) == |a|
  {
    if |a| > 0 {
      assert (a + [c] + b)[1..] == a[1..] + [c] + b;
      IndexOfAfter(a[1..], c, b);
    }
  }

  /** Concatenation of lists of strings regroups freely. */
  lemma Associative(x: seq<string>, y: seq<string>, z: seq<string>)
    ensures x + y + z == x + (y + z)
  {
  }

  /** `strings.Join(parts, sep)`. */
  function Join(parts: seq<string>, sep: string): string
  {
    if |parts| == 0 then ""
    else if |parts| == 1 then parts[0]
    else parts[0] + sep + Join(parts[1..], sep)
  }

  /** `strings.Split(s, string(sep))`: the pieces between the separators, one
      more piece than there are separators (so `Split("", sep) == [""]`). */
  function Split(s: string, sep: char): (parts: seq<string>)
    ensures |parts| >= 1
    ensures forall i :: 0 <= i < |parts| ==> sep !in parts[i]
    ensures parts[0] == s[..IndexOf(s, sep)]
    decreases |s|
  {
    var i := IndexOf(s, sep);
    if i == |s| then
      assert s[..i] == s;
      [s]
    else
      [s[..i]] + Split(s[i + 1..], sep)
  }

  /** Joining the pieces of a split with the separator gives back the string. */
  lemma {:induction false} JoinSplit(s: string, sep: char)
    ensures Join(Split(s, sep), [sep]) == s
    decreases |s|
  {
    var i := IndexOf(s, sep);
    if i < |s| {
      var tail := SplitFirst(s, sep, i);
      JoinSplit(tail, sep);
      JoinCons(s[..i], Split(tail, sep), [sep]);
    }
  }

  /** The first piece and the rest of a string that holds the separator. */
  lemma SplitFirst(s: string, sep: char, i: nat) returns (tail: string)
    requires i == IndexOf(s, sep) < |s|
    ensures tail == s[i + 1..] && |tail| < |s|
    ensures s == s[..i] + [sep] + tail
    ensures Split(s, sep) == [s[..i]] + Split(tail, sep)
  {
    tail := s[i + 1..];
    assert s == s[..i] + [sep] + tail;
    SplitAt(s, sep, s[..i], tail);
  }

  lemma JoinCons(head: string, rest: seq<string>, sep: string)
    requires |rest| >= 1
    ensures Join([head] + rest, sep) == head + sep + Join(rest, sep)
  {
    assert ([head] + rest)[1..] == rest;
  }

  /** Splitting at the first separator. */
  lemma SplitAt(s: string, sep: char, head: string, tail: string)
    requires s == head + [sep] + tail && IndexOf(s, sep) == |head|
    ensures Split(s, sep) == [head] + Split(tail, sep)
  {
    assert s[..|head|] == head;
    assert s[|head| + 1..] == tail;
  }

  /** A separator appended at the end adds one empty last piece. */
  lemma {:induction false} SplitTrailingSeparator(s: string, sep: char)
    ensures Split(s + [sep], sep) == Split(s, sep) + [""]
    decreases |s|
  {
    var i := IndexOf(s, sep);
    if i < |s| {
      var tail := SplitBothAt(s, sep, i);
      SplitTrailingSeparator(tail, sep);
      Associative([s[..i]], Split(tail, sep), [""]);
    } else {
      IndexOfAfter(s, sep, "");
      assert s + [sep] == s + [sep] + "";
      SplitAt(s + [sep], sep, s, "");
    }
  }

  /** The first piece of `s` and of `s + [sep]` is the same when `s` holds
      the separator. */
  lemma SplitBothAt(s: string, sep: char, i: nat) returns (tail: string)
    requires i == IndexOf(s, sep) < |s|
    ensures tail == s[i + 1..]
    ensures Split(s, sep) == [s[..i]] + Split(tail, sep)
    ensures Split(s + [sep], sep) == [s[..i]] + Split(tail + [sep], sep)
  {
    tail := SplitFirst(s, sep, i);
    IndexOfExtended(s, [sep], sep);
    var longer := SplitFirst(s + [sep], sep, i);
    assert (s + [sep])[..i] == s[..i];
    assert longer == tail + [sep];
  }

  /** Text appended after an occurrence does not move the first occurrence. */
  lemma IndexOfExtended(s: string, t: string, c: char)
    requires c in s
    ensures IndexOf(s + t, c) == IndexOf(s, c)
  {
    var i := IndexOf(s, c);
    assert s + t == s[..i] + [c] + (s[i + 1..] + t);
    IndexOfAfter(s[..i], c, s[i + 1..] + t);
  }

  /** Splitting what was joined gives back the pieces, provided none of them
      holds the separator. */
  lemma {:induction false} SplitJoin(parts: seq<string>, sep: char)
    requires |parts| >= 1
    requires forall i :: 0 <= i < |parts| ==> sep !in parts[i]
    ensures Split(Join(parts, [sep]), sep) == parts
  {
    if |parts| > 1 {
      var rest := parts[1..];
      var s := Join(parts, [sep]);
      assert s == parts[0] + [sep] + Join(rest, [sep]);
      IndexOfAfter(parts[0], sep, Join(rest, [sep]));
      SplitAt(s, sep, parts[0], Join(rest, [sep]));
      SplitJoin(rest, sep);
      assert parts == [parts[0]] + rest;
    }
  }

  predicate HasSuffix(s: string, suffix: string)
  {
    |suffix| <= |s| && s[|s| - |suffix|..] == suffix
  }

  /** `strings.TrimSuffix`: removes one occurrence of `suffix` at the end, if any. */
  function TrimSuffix(s: string, suffix: string): (t: string)
    ensures HasSuffix(s, suffix) ==> t + suffix == s
    ensures !HasSuffix(s, suffix) ==> t == s
  {
    if HasSuffix(s, suffix) then s[..|s| - |suffix|] else s
  }

  predicate IsDigit(c: char)
  {
    '0' <= c <= '9'
  }

  predicate AllDigits(s: string)
  {
    forall i :: 0 <= i < |s| ==> IsDigit(s[i])
  }

  /** The value of a string of decimal digits. */
  function DigitsValue(s: string): nat
    requires AllDigits(s)
  {
    if |s| == 0 then 0
    else DigitsValue(s[..|s| - 1]) * 10 + (s[|s| - 1] as int - '0' as int)
  }

  /** Bounds of Go's 64-bit `int`. */
  const MinInt: int := -0x8000_0000_0000_0000
  const MaxInt: int := 0x7fff_ffff_ffff_ffff

  /** `strconv.Atoi`: an optional `+` or `-`, then one or more decimal digits
      and nothing else, whose value fits in a 64-bit `int`; `None` is the error. */
  function Atoi(s: string): (n: Option<int>)
    ensures n.Some? ==> MinInt <= n.value <= MaxInt
    ensures n.Some? ==> |s| > 0
    ensures n.Some? ==> forall i :: 0 <= i < |s| ==> IsDigit(s[i]) || (i == 0 && (s[i] == '+' || s[i] == '-'))
    ensures n.Some? && n.value < 0 ==> s[0] == '-'
    ensures n.Some? ==> IsDigit(s[|s| - 1])
  {
    var signed := |s| > 0 && (s[0] == '+' || s[0] == '-');
    var body := if signed then s[1..] else s;
    if |body| == 0 || !AllDigits(body) then None
    else
      var magnitude: int := DigitsValue(body);
      var v: int := if signed && s[0] == '-' then -magnitude else magnitude;
      if MinInt <= v <= MaxInt then Some(v) else None
  }

  /** The full meaning of `strconv.Atoi`: an optional sign followed by a
      non-empty run of digits is accepted exactly when its value fits in 64
      bits, and then it is that value; leading zeros and a `+` are allowed.
      Every other string is refused by the contract of `Atoi`, which
      requires a digit at the end. */
  lemma AtoiSigned(sign: string, digits: string)
    requires sign == "" || sign == "+" || sign == "-"
    requires |digits| > 0 && AllDigits(digits)
    ensures var v: int := if sign == "-" then -(DigitsValue(digits) as int) else DigitsValue(digits);
      Atoi(sign + digits) == if MinInt <= v <= MaxInt then Some(v) else None
  {
    var s := sign + digits;
    if sign == "" {
      assert s == digits && IsDigit(s[0]);
    } else {
      assert s[0] == sign[0] && s[1..] == digits;
    }
  }

  /** A leading zero does not change the value of a digit string. */
  lemma {:induction false} LeadingZero(digits: string)
    requires AllDigits(digits)
    ensures AllDigits("0" + digits) && DigitsValue("0" + digits) == DigitsValue(digits)
    decreases |digits|
  {
    var s := "0" + digits;
    assert AllDigits(s) by {
      forall i | 0 <= i < |s| ensures IsDigit(s[i]) {
        if i > 0 {
          assert s[i] == digits[i - 1];
        }
      }
    }
    if |digits| > 0 {
      var init := digits[..|digits| - 1];
      LeadingZero(init);
      assert s[..|s| - 1] == "0" + init;
      assert s[|s| - 1] == digits[|digits| - 1];
    }
  }

  /** Forms `strconv.Atoi` accepts beyond the canonical one. */
  lemma AtoiForms()
    ensures Atoi("+3") == Some(3)
    ensures Atoi("03") == Some(3)
    ensures Atoi("-0") == Some(0)
    ensures Atoi("") == None && Atoi("-") == None && Atoi("+") == None && Atoi("3 ") == None
  {
    AtoiSigned("+", "3");
    assert "+" + "3" == "+3";
    AtoiSigned("", "03");
    assert "" + "03" == "03";
    AtoiSigned("-", "0");
    assert "-" + "0" == "-0";
    assert !IsDigit(' ');
    assert ("3 ")[1] == ' ';
  }

  /** Decimal digits of a natural number, most significant first, no leading zero. */
  function NatDigits(n: nat): (s: string)
    ensures |s| > 0 && AllDigits(s)
    ensures DigitsValue(s) == n
  {
    if n < 10 then [('0' as int + n) as char]
    else
      var prefix := NatDigits(n / 10);
      var s := prefix + [('0' as int + n % 10) as char];
      assert s[..|s| - 1] == prefix;
      s
  }

  /** `strconv.Itoa`. */
  function Itoa(n: int): (s: string)
    ensures |s| > 0
    ensures forall i :: 0 <= i < |s| ==> IsDigit(s[i]) || (i == 0 && s[i] == '-')
  {
    if n < 0 then "-" + NatDigits(-n) else NatDigits(n)
  }

  /** `strconv.Atoi` reads back every 64-bit integer `strconv.Itoa` writes. */
  lemma AtoiItoa(n: int)
    requires MinInt <= n <= MaxInt
    ensures Atoi(Itoa(n)) == Some(n)
  {
    if n < 0 {
      AtoiNegative(n);
    } else {
      AtoiNonNegative(n);
    }
  }

  lemma AtoiNegative(n: int)
    requires MinInt <= n < 0
    ensures Atoi(Itoa(n)) == Some(n)
  {
    var s := Itoa(n);
    var d := NatDigits(-n);
    assert s == "-" + d;
    assert s[1..] == d;
    assert |s| > 0 && s[0] == '-';
  }

  lemma AtoiNonNegative(n: int)
    requires 0 <= n <= MaxInt
    ensures Atoi(Itoa(n)) == Some(n)
  {
    var s := Itoa(n);
    assert s == NatDigits(n);
    assert IsDigit(s[0]);
  }
}
