/** Setting one query parameter in a path-and-query text (`apply_set_param` in inject.rs),
    with the form encoding it relies on (section 5.2 of the WHATWG URL Standard). */
module QueryParam {
  import opened Wrappers
  import opened Text

  // ── Form encoding ─────────────────────────────────────────────────────

  predicate Plain(c: char) {
    'a' <= c <= 'z' || 'A' <= c <= 'Z' || '0' <= c <= '9' || c == '*' || c == '-' || c == '.' || c == '_'
  }

  function HexDigit(n: nat): (c: char)
    requires n < 16
    ensures Plain(c)
    ensures if n < 10 then c as int == n + '0' as int else c as int == n - 10 + 'A' as int
  {
    if n < 10 then '0' + n as char else 'A' + (n - 10) as char
  }

  function EncodeByte(c: char): (e: string)
    ensures |e| >= 1
    ensures '=' !in e && '&' !in e && '#' !in e && '?' !in e
  {
    if c == ' ' then "+"
    else if Plain(c) then [c]
    else ['%', HexDigit(c as int / 16 % 16), HexDigit(c as int % 16)]
  }

  function FormEncode(s: string): (e: string)
    ensures '=' !in e && '&' !in e && '#' !in e && '?' !in e
  {
    if s == "" then "" else EncodeByte(s[0]) + FormEncode(s[1..])
  }

  /** Exactly the texts of letters, digits and `*-._` are their own encoding. */
  lemma {:induction false} PlainStays(s: string)
    ensures FormEncode(s) == s <==> forall i | 0 <= i < |s| :: Plain(s[i])
    ensures |FormEncode(s)| >= |s|
  {
    if s != "" {
      PlainStays(s[1..]);
      var e, rest := EncodeByte(s[0]), FormEncode(s[1..]);
      assert FormEncode(s)[0] == e[0];
      assert |e| == 1 ==> FormEncode(s)[1..] == rest;
      assert forall i | 1 <= i < |s| :: s[i] == s[1..][i - 1];
      assert (forall i | 0 <= i < |s| - 1 :: Plain(s[1..][i])) <==> (forall i | 1 <= i < |s| :: Plain(s[i]));
    }
  }

  predicate IsBytes(s: string) {
    forall i | 0 <= i < |s| :: s[i] as int < 256
  }

  lemma EncodeByteInjective(a: char, b: char)
    requires a as int < 256 && b as int < 256 && EncodeByte(a) == EncodeByte(b)
    ensures a == b
  {
    var e, f := EncodeByte(a), EncodeByte(b);
    assert e[0] == f[0];
    if |e| == 3 {
      assert e[1] == f[1] && e[2] == f[2];
      assert a as int == a as int / 16 % 16 * 16 + a as int % 16;
      assert b as int == b as int / 16 % 16 * 16 + b as int % 16;
    }
  }

  lemma EncodeByteIsPrefixCode(a: char, x: string, b: char, y: string)
    requires a as int < 256 && b as int < 256
    requires EncodeByte(a) + x == EncodeByte(b) + y
    ensures a == b && x == y
  {
    var e, f := EncodeByte(a), EncodeByte(b);
    assert e[0] == (e + x)[0] == (f + y)[0] == f[0];
    assert |e| == |f| == if e[0] == '%' then 3 else 1;
    assert e == (e + x)[..|e|] == (f + y)[..|f|] == f;
    assert x == (e + x)[|e|..] == (f + y)[|f|..] == y;
    EncodeByteInjective(a, b);
  }

  /** Different names are encoded differently. */
  lemma {:induction false} FormEncodeInjective(s: string, t: string)
    requires IsBytes(s) && IsBytes(t) && FormEncode(s) == FormEncode(t)
    ensures s == t
  {
    if s != "" && t != "" {
      EncodeByteIsPrefixCode(s[0], FormEncode(s[1..]), t[0], FormEncode(t[1..]));
      FormEncodeInjective(s[1..], t[1..]);
    }
  }

  // ── Form decoding, as the receiving side does it ──────────────────────

  /** The value of a hexadecimal digit in either case. */
  function HexValue(c: char): Option<nat> {
    if '0' <= c <= '9' then Some(c as int - '0' as int)
    else if 'A' <= c <= 'F' then Some(10 + c as int - 'A' as int)
    else if 'a' <= c <= 'f' then Some(10 + c as int - 'a' as int)
    else None
  }

  /** '+' is a space, '%' and two digits are the byte they name, all else stands for itself. */
  function FormDecode(s: string): string {
    if s == "" then ""
    else if s[0] == '+' then " " + FormDecode(s[1..])
    else if s[0] == '%' && |s| >= 3 && HexValue(s[1]).Some? && HexValue(s[2]).Some? then
      [(16 * HexValue(s[1]).value + HexValue(s[2]).value) as char] + FormDecode(s[3..])
    else [s[0]] + FormDecode(s[1..])
  }

  lemma HexValueOfDigit(n: nat)
    requires n < 16
    ensures HexValue(HexDigit(n)) == Some(n)
  {
  }

  lemma DecodeEncodedByte(c: char, rest: string)
    requires c as int < 256
    ensures FormDecode(EncodeByte(c) + rest) == [c] + FormDecode(rest)
  {
    var e, n := EncodeByte(c), c as int;
    var s := e + rest;
    if |e| == 1 {
      assert s[0] == e[0] && s[1..] == rest;
    } else {
      HexValueOfDigit(n / 16 % 16);
      HexValueOfDigit(n % 16);
      assert s[0] == '%' && s[1] == HexDigit(n / 16 % 16) && s[2] == HexDigit(n % 16) && s[3..] == rest;
      assert 16 * (n / 16 % 16) + n % 16 == n;
    }
  }

  /** Every byte text is read back from its encoding. */
  lemma {:induction false} FormRoundTrip(s: string)
    requires IsBytes(s)
    ensures FormDecode(FormEncode(s)) == s
  {
    if s != "" {
      DecodeEncodedByte(s[0], FormEncode(s[1..]));
      FormRoundTrip(s[1..]);
    }
  }

  function EncodedPair(name: string, value: string): (pair: string)
    ensures '&' !in pair && '#' !in pair && pair != ""
  {
    FormEncode(name) + "=" + FormEncode(value)
  }

  lemma PairShape(name: string, value: string)
    ensures SegmentName(EncodedPair(name, value)) == FormEncode(name)
  {
    BeforeIs(FormEncode(name), '=', FormEncode(value));
  }

  // ── The parts of a path-and-query text ────────────────────────────────

  function BeforeFragment(path: string): string { Before(path, '#') }

  function Fragment(path: string): string { path[|BeforeFragment(path)|..] }

  function Base(path: string): string { Before(BeforeFragment(path), '?') }

  /** The raw `&`-separated pieces of the query; none when it is absent or empty. */
  function RawSegments(path: string): seq<string> {
    var body, base := BeforeFragment(path), Base(path);
    if |body| <= |base| + 1 then [] else Split(body[|base| + 1..], '&')
  }

  function SegmentName(segment: string): string { Before(segment, '=') }

  /** `pair` in place of the first piece named `name`, or at the end. */
  function ReplaceFirst(segments: seq<string>, name: string, pair: string): (r: seq<string>)
    ensures |r| >= 1 && pair in r
    ensures forall s | s in r :: s in segments || s == pair
  {
    if segments == [] then [pair]
    else if SegmentName(segments[0]) == name then [pair] + segments[1..]
    else [segments[0]] + ReplaceFirst(segments[1..], name, pair)
  }

  function SetParam(path: string, name: string, value: string): string {
    Base(path) + "?"
    + Join(ReplaceFirst(RawSegments(path), FormEncode(name), EncodedPair(name, value)), '&')
    + Fragment(path)
  }

  /** The first raw piece carrying `name`. */
  function Find(segments: seq<string>, encodedName: string): Option<string> {
    if segments == [] then None
    else if SegmentName(segments[0]) == encodedName then Some(segments[0])
    else Find(segments[1..], encodedName)
  }

  function Param(path: string, name: string): Option<string> {
    Find(RawSegments(path), FormEncode(name))
  }

  // ── What setting a parameter does to the parts ────────────────────────

  lemma {:induction false} JoinContains(parts: seq<string>, part: string)
    requires |parts| >= 1 && part in parts
    ensures |Join(parts, '&')| >= |part|
  {
    if |parts| > 1 && part != parts[0] {
      assert part in parts[1..];
      JoinContains(parts[1..], part);
    }
  }

  lemma RawSegmentsShape(path: string)
    ensures forall s | s in RawSegments(path) :: '&' !in s && '#' !in s
  {
    var body, base := BeforeFragment(path), Base(path);
    if |body| > |base| + 1 {
      SplitPartsAvoid(body[|base| + 1..], '&', '#');
    }
  }

  lemma PartsOf(base: string, query: string, fragment: string)
    requires '?' !in base && '#' !in base && '#' !in query && query != ""
    requires fragment == "" || fragment[0] == '#'
    ensures var path := base + "?" + query + fragment;
            Base(path) == base && Fragment(path) == fragment && RawSegments(path) == Split(query, '&')
  {
    var body := base + "?" + query;
    BodyOf(body, fragment);
    BeforeIs(base, '?', query);
    assert body[|base| + 1..] == query;
  }

  lemma BodyOf(body: string, fragment: string)
    requires '#' !in body
    requires fragment == "" || fragment[0] == '#'
    ensures BeforeFragment(body + fragment) == body && Fragment(body + fragment) == fragment
  {
    var rest := if fragment == "" then "" else fragment[1..];
    BeforeIs(body, '#', rest);
    assert fragment == "" ==> body + fragment == body;
    assert fragment != "" ==> body + "#" + rest == body + fragment;
  }

  /** The path in front of the query and the fragment stay; the pieces are edited. */
  lemma SetParamParts(path: string, name: string, value: string)
    ensures var p := SetParam(path, name, value);
            Base(p) == Base(path) && Fragment(p) == Fragment(path)
            && RawSegments(p) == ReplaceFirst(RawSegments(path), FormEncode(name), EncodedPair(name, value))
  {
    var segments := ReplaceFirst(RawSegments(path), FormEncode(name), EncodedPair(name, value));
    RawSegmentsShape(path);
    JoinAvoids(segments, '&', '#');
    SplitJoin(segments, '&');
    JoinContains(segments, EncodedPair(name, value));
    PartsOf(Base(path), Join(segments, '&'), Fragment(path));
  }

  // ── Laws ──────────────────────────────────────────────────────────────

  lemma {:induction false} ReplaceTwice(segments: seq<string>, name: string, p: string, q: string)
    requires SegmentName(p) == name && SegmentName(q) == name
    ensures ReplaceFirst(ReplaceFirst(segments, name, p), name, q) == ReplaceFirst(segments, name, q)
  {
    if segments != [] && SegmentName(segments[0]) != name {
      ReplaceTwice(segments[1..], name, p, q);
    }
  }

  lemma {:induction false} FindAfterReplace(segments: seq<string>, name: string, pair: string, other: string)
    requires SegmentName(pair) == name
    ensures Find(ReplaceFirst(segments, name, pair), other)
         == if other == name then Some(pair) else Find(segments, other)
  {
    if segments != [] && SegmentName(segments[0]) != name {
      FindAfterReplace(segments[1..], name, pair, other);
    }
  }

  /** A second value for a name overwrites the first; with `v == w`, setting the same pair
      again changes nothing. */
  lemma SetParamOverwrites(path: string, name: string, v: string, w: string)
    ensures SetParam(SetParam(path, name, v), name, w) == SetParam(path, name, w)
  {
    SetParamParts(path, name, v);
    PairShape(name, v);
    PairShape(name, w);
    ReplaceTwice(RawSegments(path), FormEncode(name), EncodedPair(name, v), EncodedPair(name, w));
  }

  /** The set name is found with the new value; every other name is found as before. */
  lemma SetParamLookup(path: string, name: string, value: string, other: string)
    requires IsBytes(name) && IsBytes(other)
    ensures Param(SetParam(path, name, value), other)
         == if other == name then Some(EncodedPair(name, value)) else Param(path, other)
  {
    SetParamParts(path, name, value);
    PairShape(name, value);
    FindAfterReplace(RawSegments(path), FormEncode(name), EncodedPair(name, value), FormEncode(other));
    if FormEncode(other) == FormEncode(name) {
      FormEncodeInjective(other, name);
    }
  }

  /** The place of the first piece carrying `name`, or one past the end. */
  function FirstNamed(segments: seq<string>, name: string): (k: nat)
    ensures k <= |segments|
    ensures forall i | 0 <= i < k :: SegmentName(segments[i]) != name
    ensures k < |segments| ==> SegmentName(segments[k]) == name
  {
    if segments == [] || SegmentName(segments[0]) == name then 0
    else 1 + FirstNamed(segments[1..], name)
  }

  lemma HeadEdit(segments: seq<string>, pair: string)
    requires segments != []
    ensures segments[0 := pair] == [pair] + segments[1..]
  {
  }

  lemma ConsEdit(segments: seq<string>, k: nat, pair: string)
    requires segments != []
    ensures k < |segments| - 1 ==> segments[k + 1 := pair] == [segments[0]] + segments[1..][k := pair]
    ensures segments + [pair] == [segments[0]] + (segments[1..] + [pair])
  {
  }

  /** Every raw piece but the first one carrying the name keeps its bytes and its place. */
  lemma {:induction false} UntouchedSegments(segments: seq<string>, name: string, pair: string)
    ensures var k := FirstNamed(segments, name);
            ReplaceFirst(segments, name, pair)
            == if k < |segments| then segments[k := pair] else segments + [pair]
  {
    if segments == [] {
    } else if SegmentName(segments[0]) == name {
      HeadEdit(segments, pair);
    } else {
      UntouchedSegments(segments[1..], name, pair);
      ConsEdit(segments, FirstNamed(segments[1..], name), pair);
    }
  }

  // ── What the receiving side reads ─────────────────────────────────────

  /** Name and value of a raw piece, decoded; a piece without '=' has an empty value. */
  function NameRead(segment: string): string {
    FormDecode(Before(segment, '='))
  }

  function ValueRead(segment: string): string {
    var name := Before(segment, '=');
    if |name| < |segment| then FormDecode(segment[|name| + 1..]) else ""
  }

  /** The value of the first piece whose decoded name is `name`. */
  function FirstRead(segments: seq<string>, name: string): Option<string> {
    if segments == [] then None
    else if NameRead(segments[0]) == name then Some(ValueRead(segments[0]))
    else FirstRead(segments[1..], name)
  }

  function ReadParam(path: string, name: string): Option<string> {
    FirstRead(RawSegments(path), name)
  }

  /** The written pair is read back as the name and the value it was made of. */
  lemma PairReads(name: string, value: string)
    requires IsBytes(name) && IsBytes(value)
    ensures NameRead(EncodedPair(name, value)) == name && ValueRead(EncodedPair(name, value)) == value
  {
    PairShape(name, value);
    FormRoundTrip(name);
    FormRoundTrip(value);
    assert EncodedPair(name, value)[|FormEncode(name)| + 1..] == FormEncode(value);
  }

  /** Some piece in front of the first one with these bytes as its name is read under `name` too: the
      same name in another encoding. */
  ghost predicate Shadowed(segments: seq<string>, name: string) {
    exists i | 0 <= i < FirstNamed(segments, FormEncode(name)) :: NameRead(segments[i]) == name
  }

  lemma ShadowedTail(segments: seq<string>, name: string)
    requires IsBytes(name) && segments != [] && SegmentName(segments[0]) != FormEncode(name)
    ensures Shadowed(segments, name) <==> NameRead(segments[0]) == name || Shadowed(segments[1..], name)
  {
    var rest, encoded := segments[1..], FormEncode(name);
    assert FirstNamed(segments, encoded) == 1 + FirstNamed(rest, encoded);
    if i :| 0 <= i < FirstNamed(rest, encoded) && NameRead(rest[i]) == name {
      assert NameRead(segments[i + 1]) == name;
    }
    if i :| 0 <= i < FirstNamed(segments, encoded) && NameRead(segments[i]) == name {
      assert i > 0 ==> NameRead(rest[i - 1]) == name;
    }
    assert NameRead(segments[0]) == name ==> Shadowed(segments, name);
  }

  lemma {:induction false} ReadAfterReplace(segments: seq<string>, name: string, value: string, other: string)
    requires IsBytes(name) && IsBytes(value)
    ensures FirstRead(ReplaceFirst(segments, FormEncode(name), EncodedPair(name, value)), other)
         == if other == name && !Shadowed(segments, name) then Some(value) else FirstRead(segments, other)
  {
    PairReads(name, value);
    if segments == [] {
      assert [EncodedPair(name, value)][1..] == [];
    } else if SegmentName(segments[0]) == FormEncode(name) {
      FormRoundTrip(name);
    } else {
      ShadowedTail(segments, name);
      ReadAfterReplace(segments[1..], name, value, other);
    }
  }

  /** The receiving side reads the new value under the set name unless the path has, in front of the
      piece that was set, the same name in another encoding; then it reads what it read before. Every
      other name is read as before. */
  lemma SetParamReadIff(path: string, name: string, value: string, other: string)
    requires IsBytes(name) && IsBytes(value)
    ensures ReadParam(SetParam(path, name, value), other)
         == if other == name && !Shadowed(RawSegments(path), name) then Some(value) else ReadParam(path, other)
  {
    SetParamParts(path, name, value);
    ReadAfterReplace(RawSegments(path), name, value, other);
  }

  /** The piece found under the set name is read as that name and the new value, for every path. */
  lemma SetPieceReads(path: string, name: string, value: string)
    requires IsBytes(name) && IsBytes(value)
    ensures Param(SetParam(path, name, value), name).Some?
    ensures var piece := Param(SetParam(path, name, value), name).value;
            NameRead(piece) == name && ValueRead(piece) == value
  {
    SetParamLookup(path, name, value, name);
    PairReads(name, value);
  }

  /** A piece with the name in another encoding hides what is set, whatever stands behind it. */
  lemma OtherEncodingShadows(piece: string, rest: seq<string>, name: string, value: string)
    requires NameRead(piece) == name && SegmentName(piece) != FormEncode(name)
    ensures FirstRead(ReplaceFirst([piece] + rest, FormEncode(name), EncodedPair(name, value)), name)
         == Some(ValueRead(piece))
  {
    assert ReplaceFirst([piece] + rest, FormEncode(name), EncodedPair(name, value))[0] == piece;
  }

  /** There are such pieces: "%61" for "a". */
  lemma LetterInOtherEncoding()
    ensures NameRead("%61") == "a" && SegmentName("%61") != FormEncode("a")
  {
    BeforeIs("%61", '=', "");
    assert "%61"[3..] == "";
    assert FormEncode("a")[0] == 'a';
  }

  /** The query with its '?'. */
  function RawQuery(path: string): string {
    if '?' !in BeforeFragment(path) then ""
    else "?" + if RawSegments(path) == [] then "" else Join(RawSegments(path), '&')
  }

  lemma BodyRejoins(path: string)
    ensures BeforeFragment(path) == Base(path) + RawQuery(path)
  {
    var body := BeforeFragment(path);
    if '?' in body {
      var query := body[|Base(path)| + 1..];
      CutAt(body, '?');
      JoinSplit(query, '&');
      Associates(Base(path), "?", query);
    } else {
      assert Base(path) + "" == body;
    }
  }

  /** A path is the text in front of the query, its raw pieces and its fragment. */
  lemma PartsRejoin(path: string)
    ensures path == Base(path) + RawQuery(path) + Fragment(path)
    ensures '?' !in Base(path) && '#' !in Base(path) && (Fragment(path) == "" || Fragment(path)[0] == '#')
  {
    BodyRejoins(path);
    var body := BeforeFragment(path);
    assert path == body + path[|body|..];
    assert '#' !in body && Base(path) <= body;
  }
}
