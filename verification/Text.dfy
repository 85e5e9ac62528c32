/** ASCII text: splitting and joining on a separator, suffixes, and decimal numerals.
    A `char` stands for one byte. */
module Text {
  import opened Wrappers

  predicate EndsWith(s: string, t: string) {
    |t| <= |s| && s[|s| - |t|..] == t
  }

  /** The part of `s` in front of the first `c`, or all of `s`. */
  function Before(s: string, c: char): (r: string)
    ensures r <= s && c !in r
    ensures c !in s <==> r == s
    ensures c in s ==> r + [c] <= s
  {
    if s == "" || s[0] == c then "" else [s[0]] + Before(s[1..], c)
  }

  lemma {:induction false} BeforeIs(head: string, c: char, rest: string)
    requires c !in head
    ensures Before(head, c) == head
    ensures Before(head + [c] + rest, c) == head
  {
    if head == "" {
      assert ([c] + rest)[0] == c;
    } else {
      BeforeIs(head[1..], c, rest);
      assert (head + [c] + rest)[1..] == head[1..] + [c] + rest;
    }
  }

  /** Cutting at `c` first does not matter when no `c` stands before the first `d`. */
  lemma {:induction false} BeforeBefore(s: string, c: char, d: char)
    requires c != d && c !in Before(s, d)
    ensures Before(Before(s, c), d) == Before(s, d)
  {
    if s != "" && s[0] != d {
      assert s[0] == Before(s, d)[0];
      BeforeBefore(s[1..], c, d);
    }
  }

  function Split(s: string, c: char): (parts: seq<string>)
    ensures |parts| >= 1
    ensures forall part | part in parts :: c !in part
  {
    if s == "" then [""]
    else
      var rest := Split(s[1..], c);
      if s[0] == c then [""] + rest else [[s[0]] + rest[0]] + rest[1..]
  }

  function Join(parts: seq<string>, c: char): string
    requires |parts| >= 1
  {
    if |parts| == 1 then parts[0] else parts[0] + [c] + Join(parts[1..], c)
  }

  lemma {:induction false} JoinSplit(s: string, c: char)
    ensures Join(Split(s, c), c) == s
  {
    if s != "" {
      JoinSplit(s[1..], c);
      var rest := Split(s[1..], c);
      var parts := Split(s, c);
      if s[0] == c {
        assert parts[1..] == rest;
      } else {
        assert parts[1..] == rest[1..];
      }
    }
  }

  lemma {:induction false} SplitHead(head: string, c: char, rest: string)
    requires c !in head
    ensures Split(head, c) == [head]
    ensures Split(head + [c] + rest, c) == [head] + Split(rest, c)
  {
    var s := head + [c] + rest;
    if head == "" {
      assert s[1..] == rest;
    } else {
      SplitHead(head[1..], c, rest);
      assert [head[0]] + head[1..] == head;
      assert s[1..] == head[1..] + [c] + rest;
    }
  }

  lemma {:induction false} SplitJoin(parts: seq<string>, c: char)
    requires |parts| >= 1
    requires forall part | part in parts :: c !in part
    ensures Split(Join(parts, c), c) == parts
  {
    if |parts| == 1 {
      SplitHead(parts[0], c, "");
    } else {
      SplitJoin(parts[1..], c);
      SplitHead(parts[0], c, Join(parts[1..], c));
    }
  }

  /** One more piece at the end of a joined text. */
  lemma {:induction false} JoinSnoc(parts: seq<string>, last: string, c: char)
    requires |parts| >= 1
    ensures Join(parts + [last], c) == Join(parts, c) + [c] + last
  {
    if |parts| > 1 {
      JoinSnoc(parts[1..], last, c);
      assert (parts + [last])[1..] == parts[1..] + [last];
    }
  }

  lemma {:induction false} JoinAvoids(parts: seq<string>, c: char, d: char)
    requires |parts| >= 1 && c != d
    requires forall part | part in parts :: d !in part
    ensures d !in Join(parts, c)
  {
    if |parts| > 1 {
      JoinAvoids(parts[1..], c, d);
    }
  }

  lemma {:induction false} SplitPartsAvoid(s: string, c: char, d: char)
    requires d !in s
    ensures forall part | part in Split(s, c) :: d !in part
  {
    if s != "" {
      SplitPartsAvoid(s[1..], c, d);
    }
  }

  /** `part` is one of the pieces of `s` between separators. */
  ghost predicate PieceAt(s: string, c: char, before: string, part: string, after: string) {
    && s == before + part + after
    && (before == "" || before[|before| - 1] == c) && (after == "" || after[0] == c)
  }

  lemma Associates(a: string, b: string, c: string)
    ensures a + (b + c) == a + b + c
  {
  }

  lemma CutBehind(s: string, head: string, c: char)
    requires head + [c] <= s
    ensures s == head + ([c] + s[|head| + 1..])
  {
    assert s[..|head|] == (head + [c])[..|head|] == head;
    assert s[|head|] == (head + [c])[|head|] == c;
    assert s == s[..|head|] + s[|head|..];
    assert s[|head|..] == [c] + s[|head| + 1..];
  }

  /** A text cut at its first `c`. */
  lemma CutAt(s: string, c: char)
    requires c in s
    ensures s == Before(s, c) + [c] + s[|Before(s, c)| + 1..]
  {
    CutBehind(s, Before(s, c), c);
    Associates(Before(s, c), [c], s[|Before(s, c)| + 1..]);
  }

  lemma PieceBehind(head: string, c: char, rest: string, before: string, part: string, after: string)
    requires PieceAt(rest, c, before, part, after)
    ensures PieceAt(head + [c] + rest, c, head + [c] + before, part, after)
  {
    Associates(head + [c], before + part, after);
    Associates(head + [c], before, part);
  }

  lemma SplitCut(s: string, c: char, head: string, rest: string)
    requires s == head + [c] + rest && c !in head
    ensures Split(s, c) == [head] + Split(rest, c) && |rest| < |s|
    ensures PieceAt(s, c, "", head, [c] + rest)
  {
    SplitHead(head, c, rest);
    Associates(head, [c], rest);
    assert "" + head == head;
  }

  /** The pieces a text is split into are those between its separators. */
  lemma {:induction false} SplitGives(s: string, c: char, part: string) returns (before: string, after: string)
    requires part in Split(s, c)
    ensures PieceAt(s, c, before, part, after)
    decreases |s|
  {
    if c !in s {
      SplitHead(s, c, "");
      before, after := "", "";
      assert s == "" + s + "";
    } else {
      var head, rest := Before(s, c), s[|Before(s, c)| + 1..];
      CutAt(s, c);
      SplitCut(s, c, head, rest);
      if part == head {
        before, after := "", [c] + rest;
      } else {
        before, after := SplitGives(rest, c, part);
        PieceBehind(head, c, rest, before, part, after);
        before := head + [c] + before;
      }
    }
  }

  lemma {:induction false} SplitHas(s: string, c: char, before: string, part: string, after: string)
    requires c !in part && PieceAt(s, c, before, part, after)
    ensures part in Split(s, c)
    decreases |before|
  {
    if before == "" {
      assert s == part + after;
      if after != "" {
        assert after == [c] + after[1..] && s == part + [c] + after[1..];
        SplitHead(part, c, after[1..]);
      } else {
        assert s == part;
        SplitHead(part, c, "");
      }
    } else {
      assert c in before;
      var head := Before(before, c);
      var rest := before[|head| + 1..];
      assert before == head + [c] + rest;
      assert s == head + [c] + (rest + part + after);
      SplitHead(head, c, rest + part + after);
      assert rest != "" ==> rest[|rest| - 1] == before[|before| - 1];
      SplitHas(rest + part + after, c, rest, part, after);
    }
  }

  // Decimal numerals, as `to_string` and `parse` produce and read them.

  function Digit(d: nat): (c: char)
    requires d < 10
    ensures '0' <= c <= '9' && c as int - '0' as int == d
  {
    '0' + d as char
  }

  function ToDecimal(n: nat): (s: string)
    ensures |s| >= 1
    ensures forall c | c in s :: '0' <= c <= '9'
  {
    if n < 10 then [Digit(n)] else ToDecimal(n / 10) + [Digit(n % 10)]
  }

  function DigitsValue(s: string): Option<nat> {
    if s == "" then Some(0)
    else
      var c := s[|s| - 1];
      match DigitsValue(s[..|s| - 1])
      case Some(v) => if '0' <= c <= '9' then Some(10 * v + (c as int - '0' as int)) else None
      case None => None
  }

  /** Unsigned integer parsing: an optional '+', then one or more digits. */
  function ParseDecimal(s: string): Option<nat> {
    var digits := if "+" <= s then s[1..] else s;
    if digits == "" then None else DigitsValue(digits)
  }

  lemma {:induction false} DigitsValueOf(n: nat)
    ensures DigitsValue(ToDecimal(n)) == Some(n)
  {
    var s := ToDecimal(n);
    if n < 10 {
      assert s[..|s| - 1] == "";
    } else {
      DigitsValueOf(n / 10);
      assert s[..|s| - 1] == ToDecimal(n / 10);
    }
  }

  lemma ParseToDecimal(n: nat)
    ensures ParseDecimal(ToDecimal(n)) == Some(n)
  {
    DigitsValueOf(n);
    assert ToDecimal(n)[0] in ToDecimal(n);
  }

  lemma ToDecimalInjective(m: nat, n: nat)
    requires ToDecimal(m) == ToDecimal(n)
    ensures m == n
  {
    ParseToDecimal(m);
    ParseToDecimal(n);
  }
}
