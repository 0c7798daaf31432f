/**
 * Text helpers for the lock record `web-code.lock`: JavaScript's
 * `split('\n')` and `join('\n')`, and the decimal text of a process id.
 */
module Text {

  /** `s.split('\n')`: the pieces between line feeds; `"".split('\n')` is `[""]`. */
  function Split(s: string): (lines: seq<string>)
    ensures |lines| >= 1
    ensures forall i :: 0 <= i < |lines| ==> '\n' !in lines[i]
    ensures |lines| == 1 <==> '\n' !in s
    ensures lines[0] <= s
    ensures '\n' in s ==> |lines[0]| < |s| && s[|lines[0]|] == '\n'
  {
    if |s| == 0 then [""]
    else
      var rest := Split(s[1..]);
      if s[0] == '\n' then [""] + rest
      else [[s[0]] + rest[0]] + rest[1..]
  }

  /** `lines.join('\n')`. */
  function Join(lines: seq<string>): (r: string)
    ensures |lines| >= 1 ==> lines[0] <= r
    ensures |lines| >= 2 ==> |lines[0]| < |r| && r[|lines[0]|] == '\n'
  {
    if |lines| == 0 then ""
    else if |lines| == 1 then lines[0]
    else lines[0] + "\n" + Join(lines[1..])
  }

  predicate NoNewline(lines: seq<string>)
  {
    forall i :: 0 <= i < |lines| ==> '\n' !in lines[i]
  }

  /** A text without line feeds is a single line. */
  lemma {:induction false} SplitSingle(a: string)
    requires '\n' !in a
    ensures Split(a) == [a]
  {
    if |a| > 0 {
      SplitSingle(a[1..]);
      assert [a[0]] + a[1..] == a;
    }
  }

  /** Splitting stops at the first line feed. */
  lemma {:induction false} SplitFirst(a: string, b: string)
    requires '\n' !in a
    ensures Split(a + "\n" + b) == [a] + Split(b)
  {
    var s := a + "\n" + b;
    if |a| == 0 {
      assert s[0] == '\n' && s[1..] == b;
    } else {
      assert s[0] == a[0] && s[1..] == a[1..] + "\n" + b;
      SplitFirst(a[1..], b);
      assert [a[0]] + a[1..] == a;
    }
  }

  /** Line 0 of a text is decided by the text up to its first line feed. */
  lemma {:induction false} SplitPrefixFirst(a: string, b: string)
    requires '\n' in a
    ensures Split(a + b)[0] == Split(a)[0]
  {
    assert (a + b)[0] == a[0];
    if a[0] != '\n' {
      assert (a + b)[1..] == a[1..] + b;
      assert a == [a[0]] + a[1..];
      SplitPrefixFirst(a[1..], b);
    }
  }

  /** A joined record whose first line holds a line feed starts with that line's first piece. */
  lemma JoinCutFirst(lines: seq<string>)
    requires |lines| >= 1 && '\n' in lines[0]
    ensures Split(Join(lines))[0] == Split(lines[0])[0]
  {
    if |lines| == 1 {
      assert lines[0] + "" == lines[0];
      SplitPrefixFirst(lines[0], "");
    } else {
      assert Join(lines) == lines[0] + ("\n" + Join(lines[1..]));
      SplitPrefixFirst(lines[0], "\n" + Join(lines[1..]));
    }
  }

  /** A text holding a line feed does not survive as line 0 of its split. */
  lemma SplitCuts(s: string)
    requires '\n' in s
    ensures Split(s)[0] != s
  {
  }

  /** Joining after an empty first line puts a line feed in front. */
  lemma {:induction false} JoinEmptyFirst(lines: seq<string>)
    requires |lines| >= 1
    ensures Join([""] + lines) == "\n" + Join(lines)
  {
    assert ([""] + lines)[1..] == lines;
  }

  /** Joining after a character is added to the first line puts that character in front. */
  lemma {:induction false} JoinConsFirst(c: char, lines: seq<string>)
    requires |lines| >= 1
    ensures Join([[c] + lines[0]] + lines[1..]) == [c] + Join(lines)
  {
    var ls := [[c] + lines[0]] + lines[1..];
    assert |ls| == |lines| && ls[0] == [c] + lines[0];
    if |lines| >= 2 {
      var tail := Join(lines[1..]);
      assert ls[1..] == lines[1..];
      assert Join(ls) == ([c] + lines[0]) + "\n" + tail;
      assert Join(lines) == lines[0] + "\n" + tail;
      assert ([c] + lines[0]) + "\n" + tail == [c] + (lines[0] + "\n" + tail);
    }
  }

  /** Joining what was split gives the text back, for every text. */
  lemma {:induction false} JoinSplit(s: string)
    ensures Join(Split(s)) == s
  {
    if |s| > 0 {
      var rest := Split(s[1..]);
      JoinSplit(s[1..]);
      assert s == [s[0]] + s[1..];
      if s[0] == '\n' {
        assert Split(s) == [""] + rest;
        JoinEmptyFirst(rest);
      } else {
        assert Split(s) == [[s[0]] + rest[0]] + rest[1..];
        JoinConsFirst(s[0], rest);
      }
    }
  }

  /** Splitting what was joined gives the lines back, when no line holds a line feed. */
  lemma {:induction false} SplitJoin(lines: seq<string>)
    requires |lines| >= 1 && NoNewline(lines)
    ensures Split(Join(lines)) == lines
  {
    if |lines| == 1 {
      SplitSingle(lines[0]);
    } else {
      SplitJoin(lines[1..]);
      SplitFirst(lines[0], Join(lines[1..]));
      assert [lines[0]] + lines[1..] == lines;
    }
  }

  /** Line 0 of a joined record is its first line, whatever the other lines hold. */
  lemma JoinKeepsFirstLine(lines: seq<string>)
    requires |lines| >= 1 && '\n' !in lines[0]
    ensures Split(Join(lines))[0] == lines[0]
  {
    if |lines| == 1 {
      SplitSingle(lines[0]);
    } else {
      SplitFirst(lines[0], Join(lines[1..]));
    }
  }

  function DigitChar(d: nat): (c: char)
    requires d < 10
    ensures '0' <= c <= '9'
  {
    (48 + d) as char
  }

  function DigitValue(c: char): (d: nat)
    requires '0' <= c <= '9'
    ensures d < 10
  {
    (c as int - 48) as nat
  }

  predicate AllDigits(s: string)
  {
    forall i :: 0 <= i < |s| ==> '0' <= s[i] <= '9'
  }

  /** The decimal text JavaScript gives a process id in `process.pid + '\n'`. */
  function Decimal(n: nat): (r: string)
    ensures |r| >= 1 && AllDigits(r)
    ensures '\n' !in r
  {
    if n < 10 then [DigitChar(n)] else Decimal(n / 10) + [DigitChar(n % 10)]
  }

  /** How `kill` reads its decimal pid argument. */
  function ParseDecimal(s: string): nat
    requires AllDigits(s)
  {
    if |s| == 0 then 0
    else 10 * ParseDecimal(s[..|s| - 1]) + DigitValue(s[|s| - 1])
  }

  /** The pid text read back names the same process. */
  lemma {:induction false} DecimalRoundTrip(n: nat)
    ensures ParseDecimal(Decimal(n)) == n
  {
    if n >= 10 {
      var r := Decimal(n);
      DecimalRoundTrip(n / 10);
      assert r[..|r| - 1] == Decimal(n / 10);
    }
  }

  /** Different processes have different pid texts. */
  lemma DecimalInjective(m: nat, n: nat)
    requires Decimal(m) == Decimal(n)
    ensures m == n
  {
    DecimalRoundTrip(m);
    DecimalRoundTrip(n);
  }
}
