/** The string operations the models share: splitting on a separator, ASCII case and blanks, and
    decimal numbers, with the round trips that the formats built from them rest on. */
module Text {
  import opened Domain

  function Split(s: string, sep: char): (r: seq<string>)
    ensures |r| >= 1
  {
    if s == "" then [""]
    else if s[0] == sep then [""] + Split(s[1..], sep)
    else var rest := Split(s[1..], sep); [[s[0]] + rest[0]] + rest[1..]
  }

  function Join(parts: seq<string>, sep: char): string
    requires |parts| >= 1
  {
    if |parts| == 1 then parts[0] else parts[0] + [sep] + Join(parts[1..], sep)
  }

  lemma {:induction false} JoinSplit(s: string, sep: char)
    ensures Join(Split(s, sep), sep) == s
  {
    if s != "" {
      JoinSplit(s[1..], sep);
      var rest := Split(s[1..], sep);
      if s[0] == sep {
        assert Split(s, sep)[1..] == rest;
      } else {
        assert Split(s, sep)[1..] == rest[1..];
        assert s == [s[0]] + s[1..];
      }
    }
  }

  /** The first part is what stands before the first separator. */
  lemma {:induction false} SplitHead(s: string, sep: char)
    ensures var r := Split(s, sep)[0]; sep !in r && r <= s && (r != s ==> s[|r|] == sep)
  {
    if s != "" && s[0] != sep { SplitHead(s[1..], sep); }
  }

  /** Splitting undoes joining when no part contains the separator. */
  lemma {:induction false} SplitJoin(parts: seq<string>, sep: char)
    requires |parts| >= 1 && forall i :: 0 <= i < |parts| ==> sep !in parts[i]
    ensures Split(Join(parts, sep), sep) == parts
    decreases |parts|, |parts[0]|
  {
    var s := Join(parts, sep);
    if parts[0] == "" {
      if |parts| > 1 {
        SplitJoin(parts[1..], sep);
        assert s[1..] == Join(parts[1..], sep);
      }
    } else {
      var shorter := [parts[0][1..]] + parts[1..];
      assert shorter[1..] == parts[1..];
      SplitJoin(shorter, sep);
      assert s[1..] == Join(shorter, sep);
      assert s[0] == parts[0][0] && s[0] in parts[0];
      assert [s[0]] + shorter[0] == parts[0];
    }
  }

  /** Where the first doubled `c` starts, or the length of the text. */
  function FirstPair(s: string, c: char): (i: nat)
    ensures i == |s| || (i + 2 <= |s| && s[i] == s[i + 1] == c)
  {
    if |s| < 2 then |s| else if s[0] == s[1] == c then 0 else 1 + FirstPair(s[1..], c)
  }

  lemma {:induction false} FirstPairAfter(a: string, b: string, c: char)
    requires c !in a
    ensures FirstPair(a + [c, c] + b, c) == |a|
  {
    var s := a + [c, c] + b;
    if a != "" {
      assert s[0] == a[0] && s[0] in a && s[1..] == a[1..] + [c, c] + b;
      FirstPairAfter(a[1..], b, c);
    }
  }

  /** ASCII lower case. */
  function Lower(s: string): (r: string)
    ensures |r| == |s|
    ensures forall i :: 0 <= i < |s| ==> r[i] as int == s[i] as int + if 'A' <= s[i] <= 'Z' then 32 else 0
  {
    seq(|s|, i requires 0 <= i < |s| => if 'A' <= s[i] <= 'Z' then s[i] - 'A' + 'a' else s[i])
  }

  predicate Blank(c: char) { c == ' ' || c == '\t' || c == '\n' || c == '\r' }

  function Trim(s: string): (r: string)
    ensures r != "" ==> !Blank(r[0]) && !Blank(r[|r| - 1])
  {
    if s == "" then ""
    else if Blank(s[0]) then Trim(s[1..])
    else if Blank(s[|s| - 1]) then Trim(s[..|s| - 1])
    else s
  }

  /** Trimming removes blanks at both ends and nothing else. */
  lemma {:induction false} TrimCuts(s: string) returns (i: nat, j: nat)
    ensures i <= j <= |s| && Trim(s) == s[i..j]
    ensures forall k :: 0 <= k < |s| && !(i <= k < j) ==> Blank(s[k])
  {
    if s == "" {
      i, j := 0, 0;
    } else if Blank(s[0]) {
      i, j := TrimCuts(s[1..]);
      assert Trim(s) == s[1..][i..j] == s[i + 1..j + 1];
      forall k | 0 <= k < |s| && !(i + 1 <= k < j + 1) ensures Blank(s[k]) {
        if k > 0 { assert Blank(s[1..][k - 1]); }
      }
      i, j := i + 1, j + 1;
    } else if Blank(s[|s| - 1]) {
      i, j := TrimCuts(s[..|s| - 1]);
      assert Trim(s) == s[..|s| - 1][i..j] == s[i..j];
      forall k | 0 <= k < |s| && !(i <= k < j) ensures Blank(s[k]) {
        if k < |s| - 1 { assert Blank(s[..|s| - 1][k]); }
      }
    } else {
      i, j := 0, |s|;
    }
  }

  /** Text without blanks at its ends is left alone. */
  lemma TrimKeeps(s: string)
    requires s != "" ==> !Blank(s[0]) && !Blank(s[|s| - 1])
    ensures Trim(s) == s
  {
  }

  predicate Digit(c: char) { '0' <= c <= '9' }

  predicate Digits(s: string) { forall i :: 0 <= i < |s| ==> Digit(s[i]) }

  function Format(n: nat): (s: string)
    ensures Digits(s) && |s| >= 1 && (s[0] == '0' ==> n == 0 && |s| == 1)
  {
    if n < 10 then ['0' + n as char] else Format(n / 10) + ['0' + (n % 10) as char]
  }

  function ParseNumber(s: string): Option<nat> {
    if s == "" then Some(0)
    else
      var rest, last := ParseNumber(s[..|s| - 1]), s[|s| - 1];
      if rest.Some? && Digit(last) then Some(10 * rest.value + (last - '0') as nat) else None
  }

  /** A non-empty run of decimal digits; leading zeros are accepted. */
  function ParseDigits(s: string): Option<nat> { if s == "" then None else ParseNumber(s) }

  lemma {:induction false} NumberIsDigits(s: string)
    requires ParseNumber(s).Some?
    ensures Digits(s)
  {
    if s != "" {
      NumberIsDigits(s[..|s| - 1]);
      forall i | 0 <= i < |s| ensures Digit(s[i]) {
        if i < |s| - 1 { assert Digit(s[..|s| - 1][i]); }
      }
    }
  }

  lemma {:induction false} ParseFormat(n: nat)
    ensures ParseDigits(Format(n)) == Some(n)
  {
    if n >= 10 {
      ParseFormat(n / 10);
      assert Format(n)[..|Format(n)| - 1] == Format(n / 10);
    } else {
      assert Format(n)[..0] == "";
      assert ParseNumber(Format(n)) == Some(10 * 0 + n);
    }
  }

  /** The other way round: digits without a needless leading zero are the text of their number. */
  lemma {:induction false} FormatParse(s: string)
    requires ParseDigits(s).Some? && (|s| > 1 ==> s[0] != '0')
    ensures Format(ParseDigits(s).value) == s
  {
    var n := |s| - 1;
    assert s == s[..n] + [s[n]];
    if n == 0 {
      assert ParseNumber(s[..0]) == Some(0);
    } else {
      FormatParse(s[..n]);
      NotZero(s[..n]);
    }
  }

  lemma {:induction false} NotZero(s: string)
    requires ParseDigits(s).Some? && s[0] != '0'
    ensures ParseDigits(s).value > 0
  {
    if |s| > 1 { NotZero(s[..|s| - 1]); }
    else { assert ParseNumber(s[..0]) == Some(0); }
  }
}
