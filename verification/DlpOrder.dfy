/** In which listings of disjoint spans the masking of gateway/dlp.rs is right. The code splices
    from the last listed span to the first and never looks at the order. */
module DlpOrder {
  import opened Dlp

  /** Every span covers something and ends inside a text of `n` characters. */
  predicate InRange(findings: seq<Finding>, n: nat) {
    forall i | 0 <= i < |findings| :: findings[i].start < findings[i].end <= n
  }

  /** `ordered` lists the same disjoint spans from the front of the text to its end. */
  predicate Arranges(listing: seq<Finding>, ordered: seq<Finding>, n: nat) {
    multiset(listing) == multiset(ordered) && Disjoint(ordered) && InRange(ordered, n)
  }

  /** For each span, the masks of the spans listed after it that stand before it in the text are
      together as long as what they cover. */
  predicate Balanced(listing: seq<Finding>, n: nat) {
    forall k | 0 <= k < |listing| :: Shift(listing[k + 1..], n, listing[k].start) == 0
  }

  // ── Sums of growth ────────────────────────────────────────────────────

  lemma {:induction false} ShiftConcat(a: seq<Finding>, b: seq<Finding>, n: nat, at: nat)
    ensures Shift(a + b, n, at) == Shift(a, n, at) + Shift(b, n, at)
  {
    if a == [] {
      assert a + b == b;
    } else {
      ShiftConcat(a[1..], b, n, at);
      assert (a + b)[1..] == a[1..] + b;
    }
  }

  function Without(findings: seq<Finding>, i: nat): seq<Finding>
    requires i < |findings|
  {
    findings[..i] + findings[i + 1..]
  }

  lemma ShiftWithout(findings: seq<Finding>, i: nat, n: nat, at: nat)
    requires i < |findings|
    ensures Shift(findings, n, at) == Shift(Without(findings, i), n, at) + Shift([findings[i]], n, at)
  {
    var a, f, b := findings[..i], [findings[i]], findings[i + 1..];
    assert findings == a + f + b;
    ShiftConcat(a + f, b, n, at);
    ShiftConcat(a, f, n, at);
    ShiftConcat(a, b, n, at);
  }

  lemma MultisetWithout(findings: seq<Finding>, i: nat)
    requires i < |findings|
    ensures multiset(findings) == multiset(Without(findings, i)) + multiset{findings[i]}
  {
    assert findings == findings[..i] + [findings[i]] + findings[i + 1..];
  }

  lemma HeadIn(listing: seq<Finding>, ordered: seq<Finding>) returns (i: nat)
    requires listing != [] && multiset(listing) == multiset(ordered)
    ensures i < |ordered| && ordered[i] == listing[0]
    ensures multiset(listing[1..]) == multiset(Without(ordered, i))
  {
    assert listing[0] in multiset(listing);
    assert listing[0] in ordered;
    i :| 0 <= i < |ordered| && ordered[i] == listing[0];
    MultisetWithout(ordered, i);
    assert listing == [listing[0]] + listing[1..];
    assert multiset(listing[1..]) == multiset(listing) - multiset{listing[0]};
  }

  /** The sum does not depend on the order of the listing. */
  lemma {:induction false} ShiftIgnoresOrder(a: seq<Finding>, b: seq<Finding>, n: nat, at: nat)
    requires multiset(a) == multiset(b)
    ensures Shift(a, n, at) == Shift(b, n, at)
    decreases |a|
  {
    if a == [] {
      assert |multiset(b)| == 0;
    } else {
      var i := HeadIn(a, b);
      ShiftIgnoresOrder(a[1..], Without(b, i), n, at);
      ShiftWithout(b, i, n, at);
      ShiftConcat([a[0]], a[1..], n, at);
      assert a == [a[0]] + a[1..];
    }
  }

  /** Once all spans have ended, neither the place nor the length of the text matters. */
  lemma {:induction false} ShiftOfEnded(findings: seq<Finding>, n: nat, at: nat, m: nat, later: nat)
    requires forall i | 0 <= i < |findings| :: findings[i].end <= at && findings[i].end <= later
    requires InRange(findings, n) && InRange(findings, m)
    ensures Shift(findings, n, at) == Shift(findings, m, later)
  {
    if findings != [] {
      ShiftOfEnded(findings[1..], n, at, m, later);
    }
  }

  lemma ArrangesWithout(listing: seq<Finding>, ordered: seq<Finding>, n: nat) returns (i: nat)
    requires listing != [] && Arranges(listing, ordered, n)
    ensures i < |ordered| && ordered[i] == listing[0] && Arranges(listing[1..], Without(ordered, i), n)
  {
    i := HeadIn(listing, ordered);
    var rest := Without(ordered, i);
    forall k | 0 <= k < |rest| ensures rest[k] == ordered[if k < i then k else k + 1] {
    }
  }

  /** The spans in front of the one at `i`, and only they, move it. */
  lemma ShiftAtSpan(ordered: seq<Finding>, n: nat, i: nat)
    requires Disjoint(ordered) && InRange(ordered, n) && i < |ordered|
    ensures Shift(ordered, n, ordered[i].start) == Shift(ordered[..i], n, n)
  {
    assert ordered == ordered[..i] + ordered[i..];
    ShiftConcat(ordered[..i], ordered[i..], n, ordered[i].start);
    assert forall k | 0 <= k < |ordered[i..]| :: ordered[i..][k] == ordered[i + k];
    NoShiftBefore(ordered[i..], n, ordered[i].start);
    ShiftOfEnded(ordered[..i], n, ordered[i].start, n, n);
  }

  /** In the ordered masking the masks stand one behind the other. */
  lemma {:induction false} MasksApart(ordered: seq<Finding>, n: nat, i: nat, j: nat)
    requires Disjoint(ordered) && InRange(ordered, n) && i < j < |ordered|
    ensures Moved(ordered, n, ordered[i].start) + |Mask(ordered[i])| <= Moved(ordered, n, ordered[j].start)
    decreases j
  {
    var before := ordered[..j - 1];
    assert ordered[..j] == before + [ordered[j - 1]];
    ShiftConcat(before, [ordered[j - 1]], n, n);
    ShiftAtSpan(ordered, n, j);
    ShiftAtSpan(ordered, n, j - 1);
    if i < j - 1 {
      MasksApart(ordered, n, i, j - 1);
    }
  }

  // ── Balanced listings ─────────────────────────────────────────────────

  /** One covering span in front of the rest, which are masked already. */
  lemma MaskedCons<T>(text: seq<T>, from: nat, findings: seq<Finding>, render: Finding -> seq<T>, behind: seq<T>)
    requires findings != [] && findings[0].start < findings[0].end <= |text|
    requires from <= |text| && Disjoint(findings) && AllFrom(findings, from)
    requires behind == Masked(text, findings[0].end, findings[1..], render)
    ensures Masked(text, from, findings, render)
         == text[from..findings[0].start] + (render(findings[0]) + behind)
  {
  }

  /** The place `at` lies between the first `i` spans and the others. */
  predicate Between(findings: seq<Finding>, i: nat, at: nat, n: nat) {
    && Disjoint(findings) && InRange(findings, n) && i <= |findings|
    && (forall k | 0 <= k < i :: findings[k].end <= at)
    && (forall k | i <= k < |findings| :: at <= findings[k].start)
  }

  lemma BetweenParts(findings: seq<Finding>, i: nat, at: nat, n: nat)
    requires Between(findings, i, at, n)
    ensures Disjoint(findings[..i]) && Disjoint(findings[i..]) && AllFrom(findings[i..], at)
    ensures InRange(findings[..i], n) && InRange(findings[i..], n)
  {
  }

  lemma BetweenRest(findings: seq<Finding>, i: nat, at: nat, n: nat)
    requires Between(findings, i, at, n) && i > 0
    ensures Between(findings[1..], i - 1, at, n) && AllFrom(findings[1..], findings[0].end)
    ensures findings[..i][1..] == findings[1..][..i - 1] && findings[i..] == findings[1..][i - 1..]
    ensures findings[0].end <= at
  {
  }

  /** The first span masked in front of a masking that falls apart. */
  lemma SplitCons<T>(
    text: seq<T>, from: nat, at: nat, findings: seq<Finding>, front: seq<Finding>, render: Finding -> seq<T>,
    tail: seq<T>)
    requires findings != [] && front != [] && front[0] == findings[0]
    requires from <= findings[0].start < findings[0].end <= at <= |text|
    requires Disjoint(findings) && AllFrom(findings, from) && Disjoint(front) && AllFrom(front, from)
    requires Masked(text, findings[0].end, findings[1..], render)
          == Masked(text[..at], findings[0].end, front[1..], render) + tail
    ensures Masked(text, from, findings, render) == Masked(text[..at], from, front, render) + tail
  {
    var f := findings[0];
    var head, middle := text[from..f.start], Masked(text[..at], f.end, front[1..], render);
    MaskedCons(text, from, findings, render, middle + tail);
    MaskedCons(text[..at], from, front, render, middle);
    assert text[..at][from..f.start] == head;
    Regroup(render(f), middle, tail);
    Regroup(head, render(f) + middle, tail);
  }

  lemma SplitStep<T>(text: seq<T>, from: nat, at: nat, findings: seq<Finding>, i: nat, render: Finding -> seq<T>)
    requires 0 < i && from <= at <= |text| && Between(findings, i, at, |text|) && AllFrom(findings, from)
    requires Between(findings[1..], i - 1, at, |text|) && AllFrom(findings[1..], findings[0].end)
    requires findings[0].end <= at
    requires Masked(text, findings[0].end, findings[1..], render)
          == Masked(text[..at], findings[0].end, findings[1..][..i - 1], render)
             + Masked(text, at, findings[1..][i - 1..], render)
    ensures Masked(text, from, findings, render)
         == Masked(text[..at], from, findings[..i], render) + Masked(text, at, findings[i..], render)
  {
    BetweenRest(findings, i, at, |text|);
    BetweenParts(findings, i, at, |text|);
    SplitCons(text, from, at, findings, findings[..i], render, Masked(text, at, findings[i..], render));
  }

  lemma SplitNone<T>(text: seq<T>, from: nat, at: nat, findings: seq<Finding>, render: Finding -> seq<T>)
    requires from <= at <= |text| && Disjoint(findings) && AllFrom(findings, at)
    ensures findings[..0] == [] && findings[0..] == findings && AllFrom(findings, from)
    ensures Masked(text, from, findings, render)
         == Masked(text[..at], from, [], render) + Masked(text, at, findings, render)
  {
    MaskedCopies(text, from, at, findings, render);
    assert text[..at][from..] == text[from..at];
  }

  /** The masking of a text falls apart at any place between two spans. */
  lemma {:induction false} MaskedSplit<T>(
    text: seq<T>, from: nat, at: nat, findings: seq<Finding>, i: nat, render: Finding -> seq<T>)
    requires from <= at <= |text| && Between(findings, i, at, |text|) && AllFrom(findings, from)
    ensures Masked(text, from, findings, render)
         == Masked(text[..at], from, findings[..i], render) + Masked(text, at, findings[i..], render)
    decreases i
  {
    if i == 0 {
      SplitNone(text, from, at, findings, render);
    } else {
      BetweenRest(findings, i, at, |text|);
      MaskedSplit(text, findings[0].end, at, findings[1..], i - 1, render);
      SplitStep(text, from, at, findings, i, render);
    }
  }

  lemma SpliceExactly<T>(front: seq<T>, middle: seq<T>, tail: seq<T>, f: Finding, render: Finding -> seq<T>)
    requires |front| == f.start && |middle| == f.end - f.start > 0
    ensures Splice(front + (middle + tail), f, render) == front + (render(f) + tail)
  {
    var whole := front + (middle + tail);
    assert whole[..f.start] == front && whole[f.end..] == tail;
    Regroup(front, render(f), tail);
  }

  /** A balanced listing of disjoint spans is masked as if it were in order, whatever the text. */
  lemma {:induction false} BalancedIsMasked<T>(
    text: seq<T>, listing: seq<Finding>, ordered: seq<Finding>, render: Finding -> seq<T>)
    requires Arranges(listing, ordered, |text|) && Renders(render) && Balanced(listing, |text|)
    ensures Spliced(text, listing, render) == Masked(text, 0, ordered, render)
    decreases |listing|
  {
    if listing == [] {
      assert |multiset(ordered)| == 0;
    } else {
      var i := ArrangesWithout(listing, ordered, |text|);
      var f, rest := listing[0], Without(ordered, i);
      BalancedTail(listing, |text|);
      BalancedIsMasked(text, listing[1..], rest, render);
      ShiftIgnoresOrder(listing[1..], rest, |text|, f.start);
      InsertAt(text, ordered, i, rest, render);
    }
  }

  lemma BalancedTail(listing: seq<Finding>, n: nat)
    requires listing != []
    ensures Balanced(listing, n) <==> (Shift(listing[1..], n, listing[0].start) == 0 && Balanced(listing[1..], n))
  {
    var rest := listing[1..];
    assert forall k | 0 <= k < |rest| :: rest[k] == listing[k + 1] && rest[k + 1..] == listing[k + 1 + 1..];
    assert Balanced(listing, n) ==> Shift(listing[0 + 1..], n, listing[0].start) == 0;
    if Shift(rest, n, listing[0].start) == 0 && Balanced(rest, n) {
      forall k | 0 <= k < |listing| ensures Shift(listing[k + 1..], n, listing[k].start) == 0 {
        if k > 0 {
          assert rest[k - 1] == listing[k] && rest[k - 1 + 1..] == listing[k + 1..];
        }
      }
    }
  }

  /** The ordered masking around the span at `i`. */
  lemma AroundSpan<T>(text: seq<T>, ordered: seq<Finding>, i: nat, render: Finding -> seq<T>)
    requires Disjoint(ordered) && InRange(ordered, |text|) && i < |ordered|
    ensures Masked(text, 0, ordered, render)
         == Masked(text[..ordered[i].start], 0, ordered[..i], render)
            + (render(ordered[i]) + Masked(text, ordered[i].end, ordered[i + 1..], render))
  {
    BeginsAt(ordered, i, |text|);
    BetweenParts(ordered, i, ordered[i].start, |text|);
    MaskedSplit(text, 0, ordered[i].start, ordered, i, render);
    MaskedHere(text, ordered[i..], render);
  }

  lemma BeginsAt(ordered: seq<Finding>, i: nat, n: nat)
    requires Disjoint(ordered) && InRange(ordered, n) && i < |ordered|
    ensures Between(ordered, i, ordered[i].start, n)
    ensures ordered[i..][0] == ordered[i] && ordered[i..][1..] == ordered[i + 1..]
  {
  }

  /** A span that begins right where the masking begins. */
  lemma MaskedHere<T>(text: seq<T>, findings: seq<Finding>, render: Finding -> seq<T>)
    requires findings != [] && Disjoint(findings) && InRange(findings, |text|)
    requires AllFrom(findings, findings[0].start)
    ensures Masked(text, findings[0].start, findings, render)
         == render(findings[0]) + Masked(text, findings[0].end, findings[1..], render)
  {
    var f := findings[0];
    assert text[f.start..f.start] == [];
  }

  /** The same place when the span itself is not masked. */
  lemma AroundGap<T>(text: seq<T>, ordered: seq<Finding>, i: nat, rest: seq<Finding>, render: Finding -> seq<T>)
    requires Disjoint(ordered) && InRange(ordered, |text|) && i < |ordered|
    requires rest == Without(ordered, i) && Disjoint(rest) && InRange(rest, |text|)
    ensures Masked(text, 0, rest, render)
         == Masked(text[..ordered[i].start], 0, ordered[..i], render)
            + (text[ordered[i].start..ordered[i].end] + Masked(text, ordered[i].end, ordered[i + 1..], render))
  {
    var f := ordered[i];
    assert rest[..i] == ordered[..i] && rest[i..] == ordered[i + 1..];
    assert forall k | i <= k < |rest| :: rest[k] == ordered[k + 1];
    assert forall k | 0 <= k < i :: rest[k] == ordered[k];
    MaskedSplit(text, 0, f.start, rest, i, render);
    MaskedCopies(text, f.start, f.end, ordered[i + 1..], render);
  }

  lemma FrontLength<T>(text: seq<T>, ordered: seq<Finding>, i: nat, render: Finding -> seq<T>)
    requires Renders(render) && Disjoint(ordered) && InRange(ordered, |text|) && i < |ordered|
    requires Shift(Without(ordered, i), |text|, ordered[i].start) == 0
    ensures |Masked(text[..ordered[i].start], 0, ordered[..i], render)| == ordered[i].start
  {
    var at, a := ordered[i].start, ordered[..i];
    ShiftConcat(a, ordered[i + 1..], |text|, at);
    NoShiftBefore(ordered[i + 1..], |text|, at);
    ShiftOfEnded(a, |text|, at, at, at);
    MaskedLength(text[..at], 0, a, render);
  }

  /** Splicing a span whose place has not moved completes the ordered masking. */
  lemma InsertAt<T>(text: seq<T>, ordered: seq<Finding>, i: nat, rest: seq<Finding>, render: Finding -> seq<T>)
    requires Renders(render) && Disjoint(ordered) && InRange(ordered, |text|) && i < |ordered|
    requires rest == Without(ordered, i) && Disjoint(rest) && InRange(rest, |text|)
    requires Shift(rest, |text|, ordered[i].start) == 0
    ensures Splice(Masked(text, 0, rest, render), ordered[i], render) == Masked(text, 0, ordered, render)
  {
    var f := ordered[i];
    AroundSpan(text, ordered, i, render);
    AroundGap(text, ordered, i, rest, render);
    FrontLength(text, ordered, i, render);
    SpliceExactly(Masked(text[..f.start], 0, ordered[..i], render), text[f.start..f.end],
                  Masked(text, f.end, ordered[i + 1..], render), f, render);
  }

  // ── Where each character comes from ───────────────────────────────────

  /** A character of the text, or one of a span's mask. */
  datatype Cell = Kept(p: nat) | OfMask(f: Finding, j: nat)

  function Originals(n: nat): seq<Cell> {
    seq(n, i requires 0 <= i < n => Kept(i))
  }

  function MaskCells(f: Finding): seq<Cell> {
    seq(|Mask(f)|, j requires 0 <= j < |Mask(f)| => OfMask(f, j))
  }

  lemma {:induction false} CellsComeFrom(n: nat, listing: seq<Finding>, c: Cell)
    requires c in Spliced(Originals(n), listing, MaskCells)
    ensures c.OfMask? ==> c.f in listing
  {
    if listing != [] {
      var cells := Spliced(Originals(n), listing[1..], MaskCells);
      if c in cells {
        CellsComeFrom(n, listing[1..], c);
      }
    }
  }

  lemma SplicedCell(cells: seq<Cell>, f: Finding, at: nat)
    requires Hits(f, |cells|) && at < |Splice(cells, f, MaskCells)|
    ensures var c := Splice(cells, f, MaskCells)[at];
            c in cells || (f.start <= at < f.start + |Mask(f)| && c == OfMask(f, at - f.start))
  {
    var spliced, end := Splice(cells, f, MaskCells), Hi(f, |cells|);
    assert spliced == cells[..f.start] + MaskCells(f) + cells[end..];
    assert forall c | c in cells[..f.start] || c in cells[end..] :: c in cells;
  }

  /** The mask of the span spliced last stands where the span begins, and nowhere else. */
  lemma LastSpliced(cells: seq<Cell>, f: Finding, at: int)
    requires forall c | c in cells :: c.OfMask? ==> c.f != f
    requires StandsAt(Splice(cells, f, MaskCells), MaskCells(f), at)
    ensures Hits(f, |cells|) && at == f.start
  {
    var spliced := Splice(cells, f, MaskCells);
    assert MaskCells(f)[0] == OfMask(f, 0);
    assert spliced[at] == spliced[at..at + |Mask(f)|][0] == OfMask(f, 0);
    assert spliced[at] !in cells;
    if Hits(f, |cells|) {
      SplicedCell(cells, f, at);
    }
  }

  /** What stands beside the mask spliced last stood there before. */
  lemma BesideLast(cells: seq<Cell>, f: Finding, part: seq<Cell>, at: int)
    requires Hits(f, |cells|) && part != [] && StandsAt(Splice(cells, f, MaskCells), part, at)
    ensures at + |part| <= f.start ==> StandsAt(cells, part, at)
    ensures f.start + |Mask(f)| <= at ==> StandsAt(cells, part, at - (|Mask(f)| - (f.end - f.start)))
  {
    var spliced, end := Splice(cells, f, MaskCells), Hi(f, |cells|);
    if at + |part| <= f.start {
      assert spliced[at..at + |part|] == cells[at..at + |part|];
    } else if f.start + |Mask(f)| <= at {
      var p := at - f.start - |Mask(f)|;
      assert spliced[at..at + |part|] == cells[end..][p..p + |part|];
      assert end == f.end;
    }
  }

  /** Taking the last splice back leaves the other masks where the ordered masking has them. */
  lemma OtherMasksStood(cells: seq<Cell>, ordered: seq<Finding>, i: nat, n: nat)
    requires Disjoint(ordered) && InRange(ordered, n) && i < |ordered|
    requires Hits(ordered[i], |cells|) && Moved(ordered, n, ordered[i].start) == ordered[i].start
    requires MasksInside(Splice(cells, ordered[i], MaskCells), n, ordered, MaskCells)
    ensures MasksInside(cells, n, Without(ordered, i), MaskCells)
  {
    var rest := Without(ordered, i);
    forall k | 0 <= k < |rest| && Hits(rest[k], n)
      ensures StandsAt(cells, MaskCells(rest[k]), Moved(rest, n, rest[k].start))
    {
      var o := if k < i then k else k + 1;
      assert rest[k] == ordered[o];
      OtherMaskStood(cells, ordered, i, o, n);
    }
  }

  lemma OtherMaskStood(cells: seq<Cell>, ordered: seq<Finding>, i: nat, o: nat, n: nat)
    requires Disjoint(ordered) && InRange(ordered, n) && i < |ordered| && o < |ordered| && o != i
    requires Hits(ordered[i], |cells|) && Moved(ordered, n, ordered[i].start) == ordered[i].start
    requires StandsAt(Splice(cells, ordered[i], MaskCells), MaskCells(ordered[o]), Moved(ordered, n, ordered[o].start))
    ensures StandsAt(cells, MaskCells(ordered[o]), Moved(Without(ordered, i), n, ordered[o].start))
  {
    var g := ordered[o];
    ShiftWithout(ordered, i, n, g.start);
    assert Shift([ordered[i]], n, g.start) == if o < i then 0 else Growth(ordered[i], n) by {
      assert [ordered[i]][1..] == [];
    }
    BesideLast(cells, ordered[i], MaskCells(g), Moved(ordered, n, g.start));
    if o < i {
      MasksApart(ordered, n, o, i);
    } else {
      MasksApart(ordered, n, i, o);
    }
  }

  lemma {:induction false} WellPlacedIsBalanced(n: nat, listing: seq<Finding>, ordered: seq<Finding>)
    requires Arranges(listing, ordered, n)
    requires MasksInside(Spliced(Originals(n), listing, MaskCells), n, ordered, MaskCells)
    ensures Balanced(listing, n)
    decreases |listing|
  {
    if listing != [] {
      var i := ArrangesWithout(listing, ordered, n);
      var f, rest, cells := listing[0], Without(ordered, i), Spliced(Originals(n), listing[1..], MaskCells);
      forall c | c in cells ensures c.OfMask? ==> c.f != f {
        CellsComeFrom(n, listing[1..], c);
        NotListedAgain(listing, ordered, i, n);
      }
      LastSpliced(cells, f, Moved(ordered, n, f.start));
      OtherMasksStood(cells, ordered, i, n);
      WellPlacedIsBalanced(n, listing[1..], rest);
      ShiftWithout(ordered, i, n, f.start);
      ShiftIgnoresOrder(listing[1..], rest, n, f.start);
      BalancedTail(listing, n);
    }
  }

  lemma NotListedAgain(listing: seq<Finding>, ordered: seq<Finding>, i: nat, n: nat)
    requires listing != [] && Arranges(listing, ordered, n) && i < |ordered| && ordered[i] == listing[0]
    requires Arranges(listing[1..], Without(ordered, i), n)
    ensures listing[0] !in listing[1..]
  {
    var rest := Without(ordered, i);
    forall k | 0 <= k < |rest| ensures rest[k] != ordered[i] {
      assert rest[k] == ordered[if k < i then k else k + 1];
    }
    assert listing[0] !in multiset(rest);
  }

  /** For disjoint spans that each cover something of the text, in any listing: every character
      of the result comes from where the ordered masking takes it exactly when the listing is
      balanced. */
  lemma ListingIsRightIff(n: nat, listing: seq<Finding>, ordered: seq<Finding>)
    requires Arranges(listing, ordered, n)
    ensures Spliced(Originals(n), listing, MaskCells) == Masked(Originals(n), 0, ordered, MaskCells)
       <==> Balanced(listing, n)
  {
    if Balanced(listing, n) {
      BalancedIsMasked(Originals(n), listing, ordered, MaskCells);
    }
    if Spliced(Originals(n), listing, MaskCells) == Masked(Originals(n), 0, ordered, MaskCells) {
      MaskedMasksAll(Originals(n), ordered, MaskCells);
      WellPlacedIsBalanced(n, listing, ordered);
    }
  }

  /** A listing in text order is balanced, whatever its masks. */
  lemma OrderedIsBalanced(listing: seq<Finding>, n: nat)
    requires Disjoint(listing) && InRange(listing, n)
    ensures Balanced(listing, n)
  {
    forall k | 0 <= k < |listing| ensures Shift(listing[k + 1..], n, listing[k].start) == 0 {
      assert AllFrom(listing[k + 1..], listing[k].start);
      NoShiftBefore(listing[k + 1..], n, listing[k].start);
    }
  }

  // ── Back to texts ─────────────────────────────────────────────────────

  predicate Readable(n: nat, c: Cell) {
    match c
    case Kept(p) => p < n
    case OfMask(f, j) => j < |Mask(f)|
  }

  function CharOf(text: string, c: Cell): char
    requires Readable(|text|, c)
  {
    match c
    case Kept(p) => text[p]
    case OfMask(f, j) => Mask(f)[j]
  }

  function Read(text: string, cells: seq<Cell>): string
    requires forall i | 0 <= i < |cells| :: Readable(|text|, cells[i])
  {
    seq(|cells|, i requires 0 <= i < |cells| => CharOf(text, cells[i]))
  }

  lemma ReadSplice(text: string, cells: seq<Cell>, f: Finding)
    requires forall i | 0 <= i < |cells| :: Readable(|text|, cells[i])
    ensures forall i | 0 <= i < |Splice(cells, f, MaskCells)| :: Readable(|text|, Splice(cells, f, MaskCells)[i])
    ensures Read(text, Splice(cells, f, MaskCells)) == Splice(Read(text, cells), f, Mask)
  {
    var mask := MaskCells(f);
    assert Read(text, mask) == Mask(f);
    if Hits(f, |cells|) {
      var front, back := cells[..f.start], cells[Hi(f, |cells|)..];
      ReadConcat(text, front + mask, back);
      ReadConcat(text, front, mask);
      assert Read(text, cells)[..f.start] == Read(text, front);
      assert Read(text, cells)[Hi(f, |cells|)..] == Read(text, back);
    }
  }

  lemma ReadConcat(text: string, a: seq<Cell>, b: seq<Cell>)
    requires forall i | 0 <= i < |a| :: Readable(|text|, a[i])
    requires forall i | 0 <= i < |b| :: Readable(|text|, b[i])
    ensures forall i | 0 <= i < |a + b| :: Readable(|text|, (a + b)[i])
    ensures Read(text, a + b) == Read(text, a) + Read(text, b)
  {
  }

  /** The cells say where each character of the masked text comes from. */
  lemma {:induction false} SplicedIsRead(text: string, listing: seq<Finding>)
    ensures var cells := Spliced(Originals(|text|), listing, MaskCells);
            && (forall i | 0 <= i < |cells| :: Readable(|text|, cells[i]))
            && Spliced(text, listing, Mask) == Read(text, cells)
  {
    if listing == [] {
      assert Read(text, Originals(|text|)) == text;
    } else {
      SplicedIsRead(text, listing[1..]);
      ReadSplice(text, Spliced(Originals(|text|), listing[1..], MaskCells), listing[0]);
    }
  }

  // ── Two spans ─────────────────────────────────────────────────────────

  predicate TwoSpans(a: Finding, b: Finding, n: nat) {
    a.start < a.end <= b.start < b.end <= n
  }

  /** A character of the second span that a listing with the first span last does not cover. */
  function Missed(a: Finding, b: Finding): nat
    requires b.start < b.end
  {
    if |Mask(a)| > a.end - a.start then b.end - 1 else b.start
  }

  lemma TwoMasked(text: string, a: Finding, b: Finding)
    requires TwoSpans(a, b, |text|)
    ensures Masked(text, 0, [a, b], Mask)
         == text[..a.start] + (Mask(a) + (text[a.end..b.start] + (Mask(b) + text[b.end..])))
  {
    assert [a, b][1..] == [b] && [b][1..] == [];
    MaskedCons(text, a.end, [b], Mask, text[b.end..]);
    MaskedCons(text, 0, [a, b], Mask, text[a.end..b.start] + (Mask(b) + text[b.end..]));
  }

  /** Where the missed character ends up. */
  function MissedAt(a: Finding, b: Finding): nat
    requires a.start < a.end <= b.start < b.end
  {
    var growth := |Mask(a)| - (a.end - a.start);
    if growth > 0 then b.start + |Mask(b)| + growth - 1 else b.start + growth
  }

  lemma SpliceKeeps(text: string, f: Finding, p: nat)
    requires p < |text| && f.start < f.end
    ensures p < f.start ==> p < |Splice(text, f, Mask)| && Splice(text, f, Mask)[p] == text[p]
    ensures f.end <= p ==>
              && 0 <= p + |Mask(f)| - (f.end - f.start) < |Splice(text, f, Mask)|
              && Splice(text, f, Mask)[p + |Mask(f)| - (f.end - f.start)] == text[p]
  {
  }

  lemma MissedStays(text: string, a: Finding, b: Finding)
    requires TwoSpans(a, b, |text|) && |Mask(a)| != a.end - a.start
    ensures MissedAt(a, b) < |Spliced(text, [b, a], Mask)|
    ensures Spliced(text, [b, a], Mask)[MissedAt(a, b)] == text[Missed(a, b)]
  {
    assert [b, a][1..] == [a] && [a][1..] == [];
    var once := Splice(text, a, Mask);
    assert Spliced(text, [a], Mask) == once;
    SpliceKeeps(text, a, Missed(a, b));
    SpliceKeeps(once, b, Missed(a, b) + |Mask(a)| - (a.end - a.start));
  }

  lemma BothMaskAlike(text: string, other: string, a: Finding, b: Finding)
    requires TwoSpans(a, b, |text|) && other == text[Missed(a, b) := 'y']
    ensures Masked(text, 0, [a, b], Mask) == Masked(other, 0, [a, b], Mask)
  {
    TwoMasked(text, a, b);
    TwoMasked(other, a, b);
    assert text[..a.start] == other[..a.start] && text[b.end..] == other[b.end..];
    assert text[a.end..b.start] == other[a.end..b.start];
  }

  /** Listed back to front, two spans are masked rightly in every text exactly when the first
      mask is as long as what it covers. */
  lemma TwoSpansIff(n: nat, a: Finding, b: Finding)
    requires TwoSpans(a, b, n)
    ensures (forall text: string | |text| == n :: Spliced(text, [b, a], Mask) == Masked(text, 0, [a, b], Mask))
       <==> |Mask(a)| == a.end - a.start
  {
    if |Mask(a)| == a.end - a.start {
      BackToFrontBalanced(a, b, n);
      forall text: string | |text| == n
        ensures Spliced(text, [b, a], Mask) == Masked(text, 0, [a, b], Mask)
      {
        BalancedIsMasked(text, [b, a], [a, b], Mask);
      }
    } else {
      var text := BackToFrontFails(n, a, b);
    }
  }

  lemma BackToFrontFails(n: nat, a: Finding, b: Finding) returns (text: string)
    requires TwoSpans(a, b, n) && |Mask(a)| != a.end - a.start
    ensures |text| == n && Spliced(text, [b, a], Mask) != Masked(text, 0, [a, b], Mask)
  {
    text := seq(n, _ => 'x');
    var other := text[Missed(a, b) := 'y'];
    BothMaskAlike(text, other, a, b);
    MissedDiffers(text, other, a, b);
    if Spliced(text, [b, a], Mask) == Masked(text, 0, [a, b], Mask) {
      text := other;
    }
  }

  lemma MissedDiffers(text: string, other: string, a: Finding, b: Finding)
    requires TwoSpans(a, b, |text|) && |Mask(a)| != a.end - a.start
    requires |other| == |text| && text[Missed(a, b)] != other[Missed(a, b)]
    ensures Spliced(text, [b, a], Mask) != Spliced(other, [b, a], Mask)
  {
    MissedStays(text, a, b);
    MissedStays(other, a, b);
  }

  lemma BackToFrontBalanced(a: Finding, b: Finding, n: nat)
    requires TwoSpans(a, b, n) && |Mask(a)| == a.end - a.start
    ensures Arranges([b, a], [a, b], n) && Balanced([b, a], n)
  {
    assert multiset([b, a]) == multiset([a, b]);
    BalancedTail([b, a], n);
    BalancedTail([a], n);
    assert [b, a][1..] == [a] && [a][1..] == [];
    assert Growth(a, n) == 0;
    assert Shift([], n, b.start) == 0;
    assert Shift([a], n, b.start) == 0;
  }

  // ── Right by accident ─────────────────────────────────────────────────

  /** Four spans with one mask `m`: all but the first cover one character. */
  predicate SwapSpans<T(==)>(g: Finding, h: Finding, a: Finding, b: Finding, m: seq<T>, render: Finding -> seq<T>) {
    && g.start == 0 && g.end == h.start == 4 * |m| - 3 && h.end == a.start == h.start + 1 && a.end == a.start + 1
    && b.start == h.start + |m| && b.end == b.start + 1
    && render(g) == render(h) == render(a) == render(b) == m && |m| > 2
  }

  /** The splices for [a, g, b, h], on a text cut at the ends of the spans. The mask of `h` moves
      `a` to where `b` was, and the mask of `g` moves `b` to where `a` was. */
  lemma SwapSteps<T>(
    p: seq<T>, x: seq<T>, y: seq<T>, q: seq<T>, z: seq<T>,
    g: Finding, h: Finding, a: Finding, b: Finding, m: seq<T>, render: Finding -> seq<T>)
    requires SwapSpans(g, h, a, b, m, render)
    requires |p| == g.end && |x| == |y| == |z| == 1 && |q| == b.start - a.end
    ensures Splice(Splice(Splice(Splice(p + (x + (y + (q + z))), h, render), b, render), g, render), a, render)
         == m + (m + (m + (q + m)))
  {
    SpliceExactly(p, x, y + (q + z), h, render);
    Regroup(p, m, y + (q + z));
    SpliceExactly(p + m, y, q + z, b, render);
    Regroup(p, m, m + (q + z));
    var tail, front := m + (m + (q + z)), m + (m + (m + q));
    SpliceExactly([], p, tail, g, render);
    assert [] + (p + tail) == p + tail && [] + (m + tail) == m + tail;
    ThreeInFront(m, q, z);
    SpliceExactly(front, z, [], a, render);
    assert z + [] == z && m + [] == m;
    ThreeInFront(m, q, m);
  }

  lemma ThreeInFront<T>(m: seq<T>, q: seq<T>, z: seq<T>)
    ensures m + (m + (m + (q + z))) == m + (m + (m + q)) + z
  {
    Regroup(m, q, z);
    Regroup(m, m + q, z);
    Regroup(m, m + (m + q), z);
  }

  lemma SplicedFour<T>(text: seq<T>, a: Finding, b: Finding, c: Finding, d: Finding, render: Finding -> seq<T>)
    ensures Spliced(text, [a, b, c, d], render)
         == Splice(Splice(Splice(Splice(text, d, render), c, render), b, render), a, render)
  {
    assert [d][1..] == [] && [c, d][1..] == [d] && [b, c, d][1..] == [c, d] && [a, b, c, d][1..] == [b, c, d];
    assert Spliced(text, [d], render) == Splice(text, d, render);
    assert Spliced(text, [c, d], render) == Splice(Spliced(text, [d], render), c, render);
    assert Spliced(text, [b, c, d], render) == Splice(Spliced(text, [c, d], render), b, render);
  }

  lemma SwapSpliced<T>(
    text: seq<T>, g: Finding, h: Finding, a: Finding, b: Finding, m: seq<T>, render: Finding -> seq<T>)
    requires SwapSpans(g, h, a, b, m, render) && |text| == b.end
    ensures Spliced(text, [a, g, b, h], render) == m + (m + (m + (text[a.end..b.start] + m)))
  {
    var p, x, y := text[..g.end], text[g.end..h.end], text[h.end..a.end];
    var q, z := text[a.end..b.start], text[b.start..];
    SwapSteps(p, x, y, q, z, g, h, a, b, m, render);
    FivePieces(text, g.end, h.end, a.end, b.start);
    SplicedFour(text, a, g, b, h, render);
  }

  lemma FivePieces<T>(s: seq<T>, i: nat, j: nat, k: nat, l: nat)
    requires i <= j <= k <= l <= |s|
    ensures s[..i] + (s[i..j] + (s[j..k] + (s[k..l] + s[l..]))) == s
  {
    Cut(s, k, l);
    Cut(s, j, k);
    Cut(s, i, j);
  }

  lemma Cut<T>(s: seq<T>, i: nat, j: nat)
    requires i <= j <= |s|
    ensures s[i..j] + s[j..] == s[i..]
  {
  }

  lemma SwapMasked<T>(
    text: seq<T>, g: Finding, h: Finding, a: Finding, b: Finding, m: seq<T>, render: Finding -> seq<T>)
    requires SwapSpans(g, h, a, b, m, render) && |text| == b.end
    ensures Masked(text, 0, [g, h, a, b], render) == m + (m + (m + (text[a.end..b.start] + m)))
  {
    var four, three, two, one := [g, h, a, b], [h, a, b], [a, b], [b];
    assert four[1..] == three && three[1..] == two && two[1..] == one && one[1..] == [];
    InOrder(g, three, |text|);
    InOrder(h, two, |text|);
    InOrder(a, one, |text|);
    InOrder(b, [], |text|);
    MaskedCons(text, a.end, one, render, []);
    assert m + [] == m;
    MaskedHere(text, two, render);
    MaskedHere(text, three, render);
    MaskedHere(text, four, render);
  }

  lemma InOrder(f: Finding, rest: seq<Finding>, n: nat)
    ensures Disjoint(rest) && AllFrom(rest, f.end) && f.start <= f.end ==>
              Disjoint([f] + rest) && AllFrom([f] + rest, f.start)
    ensures InRange(rest, n) && f.start < f.end <= n ==> InRange([f] + rest, n)
  {
  }

  /** Where characters come from matters for the condition: for every entity type there are spans
      of that type, two of which take each other's place, and no text shows it. */
  lemma SwapIsInvisible(text: string, g: Finding, h: Finding, a: Finding, b: Finding, k: nat)
    requires g.entityType == h.entityType == a.entityType == b.entityType && k == |g.entityType| + 11
    requires g.start == 0 && g.end == h.start == 4 * k - 3 && h.end == a.start == 4 * k - 2 && a.end == 4 * k - 1
    requires b.start == 5 * k - 3 && b.end == 5 * k - 2 == |text|
    ensures Disjoint([g, h, a, b]) && InRange([g, h, a, b], |text|)
    ensures Spliced(text, [a, g, b, h], Mask) == Masked(text, 0, [g, h, a, b], Mask)
    ensures !Balanced([a, g, b, h], |text|)
  {
    OneTypeOneMask(g, h, a, b, k);
    SwapAgrees(text, g, h, a, b);
    SwapUnbalanced(g, h, a, b);
  }

  lemma OneTypeOneMask(g: Finding, h: Finding, a: Finding, b: Finding, k: nat)
    requires g.entityType == h.entityType == a.entityType == b.entityType && k == |g.entityType| + 11
    requires g.start == 0 && g.end == h.start == 4 * k - 3 && h.end == a.start == 4 * k - 2 && a.end == 4 * k - 1
    requires b.start == 5 * k - 3 && b.end == 5 * k - 2
    ensures SwapSpans(g, h, a, b, Mask(g), Mask)
  {
    assert |Mask(g)| == k;
  }

  lemma SwapAgrees(text: string, g: Finding, h: Finding, a: Finding, b: Finding)
    requires SwapSpans(g, h, a, b, Mask(g), Mask) && |text| == b.end
    ensures Spliced(text, [a, g, b, h], Mask) == Masked(text, 0, [g, h, a, b], Mask)
  {
    SwapSpliced(text, g, h, a, b, Mask(g), Mask);
    SwapMasked(text, g, h, a, b, Mask(g), Mask);
  }

  lemma SwapUnbalanced(g: Finding, h: Finding, a: Finding, b: Finding)
    requires SwapSpans(g, h, a, b, Mask(g), Mask)
    ensures !Balanced([a, g, b, h], b.end)
  {
    var n, k, rest := b.end, |Mask(g)|, [g, b, h];
    BalancedTail([a, g, b, h], n);
    assert [a, g, b, h][1..] == rest && rest[1..] == [b, h] && [b, h][1..] == [h] && [h][1..] == [];
    assert Shift([], n, a.start) == 0;
    assert Growth(h, n) == k - 1 && Growth(g, n) == 3 - 3 * k && Hi(b, n) > a.start;
    assert Shift([h], n, a.start) == k - 1;
    assert Shift([b, h], n, a.start) == k - 1;
    assert Shift(rest, n, a.start) == 2 - 2 * k;
  }
}
