/** Masking of sensitive spans, and what an alert says about them (gateway/dlp.rs). */
module Dlp {
  datatype Finding = Finding(entityType: string, start: nat, end: nat, score: real)

  function Min(a: int, b: int): int { if a <= b then a else b }

  function Mask(f: Finding): string {
    "[REDACTED:" + f.entityType + "]"
  }

  // ── Masking ───────────────────────────────────────────────────────────

  /** Where `f` starts and ends in a text of `n` characters. */
  function Lo(f: Finding, n: nat): nat { Min(f.start, n) }
  function Hi(f: Finding, n: nat): nat { Min(f.end, n) }

  /** `f` covers at least one character of a text of `n` characters. */
  predicate Hits(f: Finding, n: nat) { Lo(f, n) < Hi(f, n) }

  /** What stands in the place of a span, as long as its mask; the code renders the mask itself. */
  ghost predicate Renders<T>(render: Finding -> seq<T>) {
    forall f :: |render(f)| == |Mask(f)|
  }

  function Splice<T>(text: seq<T>, f: Finding, render: Finding -> seq<T>): seq<T> {
    var start, end := Lo(f, |text|), Hi(f, |text|);
    if end > start then text[..start] + render(f) + text[end..] else text
  }

  /** The text after splicing the last finding, then the one before it, and so on. */
  function Spliced<T>(text: seq<T>, findings: seq<Finding>, render: Finding -> seq<T>): seq<T> {
    if findings == [] then text else Splice(Spliced(text, findings[1..], render), findings[0], render)
  }

  method FallbackMask(text: string, findings: seq<Finding>) returns (chars: string)
    ensures chars == Spliced(text, findings, Mask)
    ensures Disjoint(findings) ==> chars == Masked(text, 0, findings, Mask)
  {
    chars := text;
    var i := |findings|;
    while i > 0
      invariant 0 <= i <= |findings|
      invariant chars == Spliced(text, findings[i..], Mask)
    {
      i := i - 1;
      var f := findings[i];
      assert findings[i..][0] == f && findings[i..][1..] == findings[i + 1..];
      var start, end := Min(f.start, |chars|), Min(f.end, |chars|);
      if end > start {
        chars := chars[..start] + Mask(f) + chars[end..];
      }
    }
    assert findings[0..] == findings;
    if Disjoint(findings) {
      SplicedIsMasked(text, findings, Mask);
    }
  }

  /** Each span ends before the spans listed after it begin. */
  predicate Disjoint(findings: seq<Finding>) {
    forall i, j | 0 <= i < j < |findings| :: findings[i].end <= findings[j].start
  }

  predicate AllFrom(findings: seq<Finding>, from: nat) {
    forall i | 0 <= i < |findings| :: from <= findings[i].start
  }

  /** One pass from the front: `text` from `from` on, each covered span giving its mask. */
  function Masked<T>(text: seq<T>, from: nat, findings: seq<Finding>, render: Finding -> seq<T>): seq<T>
    requires from <= |text| && Disjoint(findings) && AllFrom(findings, from)
    decreases |findings|
  {
    if findings == [] then text[from..]
    else
      var f, rest := findings[0], findings[1..];
      if Hits(f, |text|) then
        text[from..f.start] + (render(f) + Masked(text, Hi(f, |text|), rest, render))
      else
        Masked(text, from, rest, render)
  }

  lemma Regroup<T>(a: seq<T>, b: seq<T>, c: seq<T>)
    ensures a + b + c == a + (b + c)
  {
  }

  /** Characters in front of every span are copied. */
  lemma {:induction false} MaskedCopies<T>(
    text: seq<T>, from: nat, upto: nat, findings: seq<Finding>, render: Finding -> seq<T>)
    requires from <= upto <= |text| && Disjoint(findings) && AllFrom(findings, upto)
    ensures Masked(text, from, findings, render) == text[from..upto] + Masked(text, upto, findings, render)
    decreases |findings|
  {
    if findings == [] {
      assert text[from..] == text[from..upto] + text[upto..];
    } else if Hits(findings[0], |text|) {
      var f := findings[0];
      var tail := render(f) + Masked(text, Hi(f, |text|), findings[1..], render);
      Regroup(text[from..upto], text[upto..f.start], tail);
      assert text[from..f.start] == text[from..upto] + text[upto..f.start];
    } else {
      MaskedCopies(text, from, upto, findings[1..], render);
    }
  }

  /** Spans beyond the end of the text change nothing. */
  lemma {:induction false} MaskedBeyond<T>(text: seq<T>, from: nat, findings: seq<Finding>, render: Finding -> seq<T>)
    requires from <= |text| && Disjoint(findings) && AllFrom(findings, |text|)
    ensures Masked(text, from, findings, render) == text[from..]
    decreases |findings|
  {
    if findings != [] {
      MaskedBeyond(text, from, findings[1..], render);
    }
  }

  /** One more span in front of those already spliced. */
  lemma MaskedStep<T>(text: seq<T>, findings: seq<Finding>, render: Finding -> seq<T>)
    requires findings != [] && Disjoint(findings)
    ensures Splice(Masked(text, 0, findings[1..], render), findings[0], render) == Masked(text, 0, findings, render)
  {
    var f, rest, n := findings[0], findings[1..], |text|;
    var chars := Masked(text, 0, rest, render);
    if f.end <= n {
      MaskedCopies(text, 0, f.end, rest, render);
      var tail := Masked(text, f.end, rest, render);
      assert chars == text[..f.end] + tail && chars[f.end..] == tail;
      if f.start < f.end {
        assert chars[..f.start] == text[..f.start];
      }
    } else {
      MaskedBeyond(text, 0, rest, render);
      MaskedBeyond(text, n, rest, render);
      assert chars == text;
    }
  }

  /** Splicing from the last span to the first is the pass from the front. */
  lemma {:induction false} SplicedIsMasked<T>(text: seq<T>, findings: seq<Finding>, render: Finding -> seq<T>)
    requires Disjoint(findings)
    ensures Spliced(text, findings, render) == Masked(text, 0, findings, render)
    decreases |findings|
  {
    if findings != [] {
      SplicedIsMasked(text, findings[1..], render);
      MaskedStep(text, findings, render);
    }
  }

  /** How far the masks of the spans ending at or before `at` move what follows them. */
  function Shift(findings: seq<Finding>, n: nat, at: nat): int {
    if findings == [] then 0
    else
      (if Hits(findings[0], n) && Hi(findings[0], n) <= at then Growth(findings[0], n) else 0)
      + Shift(findings[1..], n, at)
  }

  /** By how much a mask is longer than what it covers. */
  function Growth(f: Finding, n: nat): int {
    |Mask(f)| - (Hi(f, n) - Lo(f, n))
  }

  lemma {:induction false} NoShiftBefore(findings: seq<Finding>, n: nat, at: nat)
    requires AllFrom(findings, at)
    ensures Shift(findings, n, at) == 0
  {
    if findings != [] {
      NoShiftBefore(findings[1..], n, at);
    }
  }

  lemma {:induction false} MaskedLength<T>(text: seq<T>, from: nat, findings: seq<Finding>, render: Finding -> seq<T>)
    requires from <= |text| && Disjoint(findings) && AllFrom(findings, from) && Renders(render)
    ensures |Masked(text, from, findings, render)| == |text| - from + Shift(findings, |text|, |text|)
    decreases |findings|
  {
    if findings != [] {
      MaskedLength(text, Behind(findings, from, |text|), findings[1..], render);
    }
  }

  predicate Covered(findings: seq<Finding>, p: nat) {
    exists i | 0 <= i < |findings| :: findings[i].start <= p < findings[i].end
  }

  predicate StandsAt<T(==)>(whole: seq<T>, part: seq<T>, at: int) {
    0 <= at <= at + |part| <= |whole| && whole[at..at + |part|] == part
  }

  lemma StandsAfter<T>(head: seq<T>, whole: seq<T>, part: seq<T>, at: int)
    requires StandsAt(whole, part, at)
    ensures StandsAt(head + whole, part, |head| + at)
  {
    assert (head + whole)[|head| + at..|head| + at + |part|] == whole[at..at + |part|];
  }

  /** The mask of `g` stands where `g` began, moved by the masks in front of it. */
  predicate MaskStands<T(==)>(text: seq<T>, from: nat, findings: seq<Finding>, render: Finding -> seq<T>, g: Finding)
    requires from <= |text| && Disjoint(findings) && AllFrom(findings, from)
  {
    StandsAt(Masked(text, from, findings, render), render(g), g.start - from + Shift(findings, |text|, g.start))
  }

  /** The first span, if it covers anything, leaves its mask where the span began. */
  lemma FirstMask<T>(text: seq<T>, from: nat, findings: seq<Finding>, render: Finding -> seq<T>)
    requires from <= |text| && Disjoint(findings) && AllFrom(findings, from)
    requires findings != [] && Hits(findings[0], |text|)
    ensures MaskStands(text, from, findings, render, findings[0])
  {
    var f, rest := findings[0], findings[1..];
    assert AllFrom(rest, f.start);
    NoShiftBefore(rest, |text|, f.start);
    var head, tail := text[from..f.start], Masked(text, Hi(f, |text|), rest, render);
    assert (head + render(f) + tail)[|head|..|head| + |render(f)|] == render(f);
  }

  /** Where copying goes on behind the first span. */
  function Behind(findings: seq<Finding>, from: nat, n: nat): (at: nat)
    requires from <= n && findings != [] && Disjoint(findings) && AllFrom(findings, from)
    ensures from <= at <= n && Disjoint(findings[1..]) && AllFrom(findings[1..], at)
  {
    if Hits(findings[0], n) then Hi(findings[0], n) else from
  }

  /** What stands behind the first span stands in the whole, moved by the first mask. */
  lemma AfterFirst<T>(
    text: seq<T>, from: nat, findings: seq<Finding>, render: Finding -> seq<T>, part: seq<T>, p: nat)
    requires from <= |text| && Disjoint(findings) && AllFrom(findings, from) && Renders(render)
    requires findings != [] && (Hits(findings[0], |text|) ==> Hi(findings[0], |text|) <= p)
    requires var at := Behind(findings, from, |text|);
             StandsAt(Masked(text, at, findings[1..], render), part, p - at + Shift(findings[1..], |text|, p))
    ensures StandsAt(Masked(text, from, findings, render), part, p - from + Shift(findings, |text|, p))
  {
    var f, rest, n := findings[0], findings[1..], |text|;
    if Hits(f, n) {
      var head, tail := text[from..f.start], Masked(text, Hi(f, n), rest, render);
      Regroup(head, render(f), tail);
      StandsAfter(head + render(f), tail, part, p - Hi(f, n) + Shift(rest, n, p));
    }
  }

  /** A character outside every span survives, moved by the masks in front of it. */
  lemma {:induction false} MaskedKeeps<T>(
    text: seq<T>, from: nat, findings: seq<Finding>, render: Finding -> seq<T>, p: nat)
    requires from <= p < |text| && Disjoint(findings) && AllFrom(findings, from) && Renders(render)
    requires !Covered(findings, p)
    ensures StandsAt(Masked(text, from, findings, render), [text[p]], p - from + Shift(findings, |text|, p))
    decreases |findings|
  {
    if findings != [] {
      var f, rest := findings[0], findings[1..];
      if Hits(f, |text|) && p < f.start {
        assert AllFrom(rest, p);
        NoShiftBefore(rest, |text|, p);
      } else {
        assert forall i | 0 <= i < |rest| :: rest[i] == findings[i + 1];
        MaskedKeeps(text, Behind(findings, from, |text|), rest, render, p);
        AfterFirst(text, from, findings, render, [text[p]], p);
      }
    }
  }

  lemma MaskStandsAfter<T>(text: seq<T>, from: nat, findings: seq<Finding>, render: Finding -> seq<T>, g: Finding)
    requires from <= |text| && Disjoint(findings) && AllFrom(findings, from) && Renders(render)
    requires findings != [] && findings[0].end <= g.start
    requires MaskStands(text, Behind(findings, from, |text|), findings[1..], render, g)
    ensures MaskStands(text, from, findings, render, g)
  {
    AfterFirst(text, from, findings, render, render(g), g.start);
  }

  /** A covering span leaves its own mask, moved by the masks in front of it. */
  lemma {:induction false} MaskedMasks<T>(
    text: seq<T>, from: nat, findings: seq<Finding>, render: Finding -> seq<T>, k: nat)
    requires from <= |text| && Disjoint(findings) && AllFrom(findings, from) && Renders(render)
    requires k < |findings| && Hits(findings[k], |text|)
    ensures MaskStands(text, from, findings, render, findings[k])
    decreases |findings|
  {
    if k == 0 {
      FirstMask(text, from, findings, render);
    } else {
      var g := findings[k];
      assert findings[0].end <= g.start && g == findings[1..][k - 1];
      MaskedMasks(text, Behind(findings, from, |text|), findings[1..], render, k - 1);
      MaskStandsAfter(text, from, findings, render, g);
    }
  }

  /** Where the character at `p` of the text stands once the spans in front of it are masked. */
  function Moved(findings: seq<Finding>, n: nat, p: nat): int {
    p + Shift(findings, n, p)
  }

  /** `masked` keeps every character outside the spans, each moved by the masks before it. */
  predicate KeepsOutside(masked: string, text: string, findings: seq<Finding>) {
    forall p | 0 <= p < |text| && !Covered(findings, p) ::
      StandsAt(masked, [text[p]], Moved(findings, |text|, p))
  }

  /** `masked` has the mask of every span that covers something, each moved likewise. */
  predicate MasksInside<T(==)>(masked: seq<T>, n: nat, findings: seq<Finding>, render: Finding -> seq<T>) {
    forall k | 0 <= k < |findings| && Hits(findings[k], n) ::
      StandsAt(masked, render(findings[k]), Moved(findings, n, findings[k].start))
  }

  lemma MaskedMasksAll<T>(text: seq<T>, findings: seq<Finding>, render: Finding -> seq<T>)
    requires Disjoint(findings) && Renders(render)
    ensures MasksInside(Masked(text, 0, findings, render), |text|, findings, render)
  {
    forall k | 0 <= k < |findings| && Hits(findings[k], |text|)
      ensures StandsAt(Masked(text, 0, findings, render), render(findings[k]),
                       Moved(findings, |text|, findings[k].start))
    {
      MaskedMasks(text, 0, findings, render, k);
    }
  }

  lemma MaskedKeepsAll(text: string, findings: seq<Finding>)
    requires Disjoint(findings)
    ensures KeepsOutside(Masked(text, 0, findings, Mask), text, findings)
  {
    forall p | 0 <= p < |text| && !Covered(findings, p)
      ensures StandsAt(Masked(text, 0, findings, Mask), [text[p]], Moved(findings, |text|, p))
    {
      MaskedKeeps(text, 0, findings, Mask, p);
    }
  }

  /** The masked text: its length, its kept characters and its masks. */
  lemma FallbackMaskMeaning(text: string, findings: seq<Finding>)
    requires Disjoint(findings)
    ensures |Spliced(text, findings, Mask)| == Moved(findings, |text|, |text|)
    ensures KeepsOutside(Spliced(text, findings, Mask), text, findings)
    ensures MasksInside(Spliced(text, findings, Mask), |text|, findings, Mask)
  {
    SplicedIsMasked(text, findings, Mask);
    MaskedLength(text, 0, findings, Mask);
    MaskedKeepsAll(text, findings);
    MaskedMasksAll(text, findings, Mask);
  }

  /** Listed the other way round, two disjoint spans leave covered characters in the text. */
  lemma OrderMatters()
    ensures var a, b := Finding("A", 0, 1, 1.0), Finding("B", 2, 3, 1.0);
            Spliced("xyz", [b, a], Mask) == "[R" + Mask(b) + "DACTED:A]yz"
  {
    var a, b := Finding("A", 0, 1, 1.0), Finding("B", 2, 3, 1.0);
    assert [b, a][1..] == [a] && [a][1..] == [];
    assert Spliced("xyz", [a], Mask) == Splice("xyz", a, Mask) == "[REDACTED:A]yz";
  }

  // ── Risk level ────────────────────────────────────────────────────────

  function Severity(entityType: string): (s: nat)
    ensures s <= 3
  {
    if entityType in {"AWS_ACCESS_KEY", "OPENAI_API_KEY", "ANTHROPIC_API_KEY", "PRIVATE_KEY", "JWT"} then 3
    else if entityType in {"US_SSN", "CREDIT_CARD", "IBAN_CODE", "US_BANK_NUMBER"} then 2
    else if entityType in {"PHONE_NUMBER", "EMAIL_ADDRESS", "URL"} then 1
    else 0
  }

  const LEVELS := ["low", "medium", "high", "critical"]

  /** Some finding is of one of these types. */
  predicate Finds(findings: seq<Finding>, types: set<string>) {
    exists i | 0 <= i < |findings| :: findings[i].entityType in types
  }

  /** The name of the highest severity found, whatever the order of the findings. */
  method RiskLevel(findings: seq<Finding>) returns (risk: string)
    ensures var keys := {"AWS_ACCESS_KEY", "OPENAI_API_KEY", "ANTHROPIC_API_KEY", "PRIVATE_KEY", "JWT"};
            var numbers := {"US_SSN", "CREDIT_CARD", "IBAN_CODE", "US_BANK_NUMBER"};
            risk == if Finds(findings, keys) then "critical"
                    else if Finds(findings, numbers) then "high"
                    else if Finds(findings, {"PHONE_NUMBER", "EMAIL_ADDRESS", "URL"}) then "medium"
                    else "low"
    ensures exists level: nat | level < 4 ::
              && risk == LEVELS[level]
              && (forall i | 0 <= i < |findings| :: Severity(findings[i].entityType) <= level)
              && (level == 0 || exists i | 0 <= i < |findings| :: Severity(findings[i].entityType) == level)
  {
    risk := "low";
    ghost var level: nat := 0;
    var i := 0;
    while i < |findings|
      invariant 0 <= i <= |findings|
      invariant level < 3 && risk == LEVELS[level]
      invariant forall j | 0 <= j < i :: Severity(findings[j].entityType) <= level
      invariant level == 0 || exists j | 0 <= j < i :: Severity(findings[j].entityType) == level
    {
      var t := findings[i].entityType;
      if t in {"AWS_ACCESS_KEY", "OPENAI_API_KEY", "ANTHROPIC_API_KEY", "PRIVATE_KEY", "JWT"} {
        assert Severity(findings[i].entityType) == 3;
        return LEVELS[3];
      } else if t in {"US_SSN", "CREDIT_CARD", "IBAN_CODE", "US_BANK_NUMBER"} {
        risk, level := "high", 2;
      } else if t in {"PHONE_NUMBER", "EMAIL_ADDRESS", "URL"} && risk == "low" {
        risk, level := "medium", 1;
      }
      i := i + 1;
    }
  }

  // ── Summary ───────────────────────────────────────────────────────────

  datatype Tally = Tally(count: nat, maxScore: real)

  ghost function TotalCount(counts: map<string, Tally>): nat {
    if counts == map[] then 0
    else
      var t :| t in counts;
      counts[t].count + TotalCount(counts - {t})
  }

  lemma {:induction false} TotalWithout(counts: map<string, Tally>, t: string)
    requires t in counts
    ensures TotalCount(counts) == counts[t].count + TotalCount(counts - {t})
    decreases |counts|
  {
    var u :| u in counts && TotalCount(counts) == counts[u].count + TotalCount(counts - {u});
    if u != t {
      TotalWithout(counts - {u}, t);
      TotalWithout(counts - {t}, u);
      assert counts - {u} - {t} == counts - {t} - {u};
    }
  }

  /** How many of the first `n` findings have type `t`. */
  function CountOf(findings: seq<Finding>, n: nat, t: string): nat
    requires n <= |findings|
  {
    if n == 0 then 0
    else CountOf(findings, n - 1, t) + if findings[n - 1].entityType == t then 1 else 0
  }

  /** `best` is the highest score among the findings of type `t`, or zero if none is positive. */
  predicate IsBest(findings: seq<Finding>, t: string, best: real) {
    && best >= 0.0
    && (forall i | 0 <= i < |findings| :: findings[i].entityType == t ==> findings[i].score <= best)
    && (best == 0.0
        || exists i | 0 <= i < |findings| :: findings[i].entityType == t && findings[i].score == best)
  }

  /** `counts` has one tally for each type among the first `n` findings. */
  ghost predicate Summarizes(counts: map<string, Tally>, findings: seq<Finding>, n: nat)
    requires n <= |findings|
  {
    && (forall t :: t in counts <==> CountOf(findings, n, t) > 0)
    && (forall t | t in counts :: counts[t].count == CountOf(findings, n, t))
    && (forall t | t in counts :: IsBest(findings[..n], t, counts[t].maxScore))
    && TotalCount(counts) == n
  }

  /** One tally for each type found: how many findings it has and its highest positive score.
      The counts add up to the number of findings. */
  method FindingsSummary(findings: seq<Finding>) returns (counts: map<string, Tally>)
    ensures Summarizes(counts, findings, |findings|)
  {
    counts := map[];
    var i := 0;
    while i < |findings|
      invariant 0 <= i <= |findings|
      invariant Summarizes(counts, findings, i)
    {
      var t, score := findings[i].entityType, findings[i].score;
      var e := if t in counts then counts[t] else Tally(0, 0.0);
      ghost var before := counts;
      counts := counts[t := Tally(e.count + 1, if score > e.maxScore then score else e.maxScore)];
      SummaryStep(before, counts, findings, i);
      i := i + 1;
    }
  }

  lemma SummaryStep(before: map<string, Tally>, counts: map<string, Tally>, findings: seq<Finding>, n: nat)
    requires n < |findings| && Summarizes(before, findings, n)
    requires var f := findings[n];
             var e := if f.entityType in before then before[f.entityType] else Tally(0, 0.0);
             counts == before[f.entityType := Tally(e.count + 1, if f.score > e.maxScore then f.score else e.maxScore)]
    ensures Summarizes(counts, findings, n + 1)
  {
    var t := findings[n].entityType;
    AddOne(before, t, counts[t]);
    forall u
      ensures u in counts <==> CountOf(findings, n + 1, u) > 0
      ensures u in counts ==> counts[u].count == CountOf(findings, n + 1, u)
    {
    }
    forall u | u in counts
      ensures IsBest(findings[..n + 1], u, counts[u].maxScore)
    {
      if u !in before {
        NoneCounted(findings, n, u);
      }
      BestStep(findings, n, u, if u in before then before[u].maxScore else 0.0);
    }
  }

  lemma AddOne(counts: map<string, Tally>, t: string, tally: Tally)
    requires tally.count == 1 + if t in counts then counts[t].count else 0
    ensures TotalCount(counts[t := tally]) == TotalCount(counts) + 1
  {
    var after := counts[t := tally];
    TotalWithout(after, t);
    if t in counts {
      TotalWithout(counts, t);
      assert after - {t} == counts - {t};
    } else {
      assert after - {t} == counts;
    }
  }

  lemma {:induction false} NoneCounted(findings: seq<Finding>, n: nat, t: string)
    requires n <= |findings| && CountOf(findings, n, t) == 0
    ensures forall i | 0 <= i < n :: findings[i].entityType != t
  {
    if n > 0 {
      NoneCounted(findings, n - 1, t);
    }
  }

  lemma BestStep(findings: seq<Finding>, n: nat, t: string, best: real)
    requires n < |findings|
    requires IsBest(findings[..n], t, best)
    ensures var f := findings[n];
            IsBest(findings[..n + 1], t, if f.entityType == t && f.score > best then f.score else best)
  {
    var longer := findings[..n + 1];
    assert longer[n] == findings[n];
    if best != 0.0 {
      var i :| 0 <= i < n && findings[..n][i].entityType == t && findings[..n][i].score == best;
      assert longer[i] == findings[..n][i];
    }
    forall i | 0 <= i < n
      ensures longer[i] == findings[..n][i]
    {
    }
  }
}
