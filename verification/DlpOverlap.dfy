/** What of the covered text can show through the masking of gateway/dlp.rs, for any list of spans:
    they may overlap, cover nothing, end beyond the text and stand in any order. */
module DlpOverlap {
  import opened Wrappers
  import opened Dlp
  import opened DlpOrder

  // ── One character through all splices ─────────────────────────────────

  /** Where the character at `x` gets to when `f` is spliced; none if `f` takes it away. */
  function Pushed(f: Finding, x: nat): Option<nat> {
    if x < f.start || f.end <= f.start then Some(x)
    else if x < f.end then None
    else Some(x + |Mask(f)| - (f.end - f.start))
  }

  /** Where the character at `p` of the text ends up, if it survives. */
  function Track(listing: seq<Finding>, p: nat): Option<nat>
    decreases |listing|
  {
    if listing == [] then Some(p)
    else
      match Track(listing[1..], p)
      case Some(x) => Pushed(listing[0], x)
      case None => None
  }

  /** The cell of `p` stands at `x`, and nowhere else; or nowhere, if there is no `x`. */
  predicate StandsOnly(cells: seq<Cell>, p: nat, x: Option<nat>) {
    && (x.Some? ==> x.value < |cells| && cells[x.value] == Kept(p))
    && (forall at | 0 <= at < |cells| && cells[at] == Kept(p) :: x == Some(at))
  }

  /** The places of a spliced text, and where they come from. */
  lemma SpliceParts(cells: seq<Cell>, f: Finding, at: nat)
    requires Hits(f, |cells|) && at < |Splice(cells, f, MaskCells)|
    ensures var s, m, end := Splice(cells, f, MaskCells), |Mask(f)|, Hi(f, |cells|);
            && |s| == |cells| + m - (end - f.start)
            && (at < f.start ==> s[at] == cells[at])
            && (f.start <= at < f.start + m ==> s[at].OfMask?)
            && (f.start + m <= at ==> at + end - f.start - m < |cells| && s[at] == cells[at + end - f.start - m])
  {
    assert Splice(cells, f, MaskCells) == cells[..f.start] + MaskCells(f) + cells[Hi(f, |cells|)..];
  }

  lemma SplicePushes(cells: seq<Cell>, f: Finding, p: nat, x: Option<nat>)
    requires StandsOnly(cells, p, x)
    ensures StandsOnly(Splice(cells, f, MaskCells), p, if x.Some? then Pushed(f, x.value) else None)
  {
    if Hits(f, |cells|) {
      var s := Splice(cells, f, MaskCells);
      forall at | 0 <= at < |s| && s[at] == Kept(p)
        ensures x.Some? && Pushed(f, x.value) == Some(at)
      {
        SpliceParts(cells, f, at);
      }
      assert |s| == |cells| + |Mask(f)| - (Hi(f, |cells|) - f.start);
      if x.Some? && Pushed(f, x.value).Some? {
        SpliceParts(cells, f, Pushed(f, x.value).value);
      }
    }
  }

  /** A character of the text stands in the masked text exactly where `Track` says, if anywhere. */
  lemma {:induction false} TrackIsExact(n: nat, listing: seq<Finding>, p: nat)
    requires p < n
    ensures StandsOnly(Spliced(Originals(n), listing, MaskCells), p, Track(listing, p))
    decreases |listing|
  {
    if listing != [] {
      TrackIsExact(n, listing[1..], p);
      SplicePushes(Spliced(Originals(n), listing[1..], MaskCells), listing[0], p, Track(listing[1..], p));
    }
  }

  // ── What shows ────────────────────────────────────────────────────────

  /** No character that a span covers survives. */
  predicate CoveredAreGone(listing: seq<Finding>, n: nat) {
    forall p | 0 <= p < n && Covered(listing, p) :: Track(listing, p).None?
  }

  predicate SameOutside(a: string, b: string, listing: seq<Finding>) {
    |a| == |b| && forall p | 0 <= p < |a| && !Covered(listing, p) :: a[p] == b[p]
  }

  /** The masked text tells nothing of the covered characters: texts that agree on all others are
      masked alike. */
  ghost predicate TellsNothing(listing: seq<Finding>, n: nat) {
    forall a: string, b: string | |a| == n && SameOutside(a, b, listing) ::
      Spliced(a, listing, Mask) == Spliced(b, listing, Mask)
  }

  lemma GoneIsAlike(a: string, b: string, listing: seq<Finding>)
    requires CoveredAreGone(listing, |a|) && SameOutside(a, b, listing)
    ensures Spliced(a, listing, Mask) == Spliced(b, listing, Mask)
  {
    var cells := Spliced(Originals(|a|), listing, MaskCells);
    SplicedIsRead(a, listing);
    SplicedIsRead(b, listing);
    forall i | 0 <= i < |cells| ensures CharOf(a, cells[i]) == CharOf(b, cells[i]) {
      if cells[i].Kept? {
        TrackIsExact(|a|, listing, cells[i].p);
      }
    }
  }

  lemma SurvivorShows(listing: seq<Finding>, n: nat, p: nat) returns (a: string, b: string)
    requires p < n && Covered(listing, p) && Track(listing, p).Some?
    ensures |a| == n && SameOutside(a, b, listing) && Spliced(a, listing, Mask) != Spliced(b, listing, Mask)
  {
    a := seq(n, _ => 'x');
    b := a[p := 'y'];
    SplicedIsRead(a, listing);
    SplicedIsRead(b, listing);
    TrackIsExact(n, listing, p);
    var x := Track(listing, p).value;
    assert Spliced(a, listing, Mask)[x] == 'x' && Spliced(b, listing, Mask)[x] == 'y';
  }

  /** For any list of spans: the masking tells nothing of what they cover, in all texts of a length,
      exactly when no covered character survives the splices. */
  lemma TellsNothingIff(listing: seq<Finding>, n: nat)
    ensures TellsNothing(listing, n) <==> CoveredAreGone(listing, n)
  {
    if CoveredAreGone(listing, n) {
      forall a: string, b: string | |a| == n && SameOutside(a, b, listing)
        ensures Spliced(a, listing, Mask) == Spliced(b, listing, Mask)
      {
        GoneIsAlike(a, b, listing);
      }
    } else {
      var p :| 0 <= p < n && Covered(listing, p) && Track(listing, p).Some?;
      var a, b := SurvivorShows(listing, n, p);
    }
  }

  // ── Lists sorted by where the spans begin ─────────────────────────────

  predicate Sorted(listing: seq<Finding>) {
    forall i, j | 0 <= i < j < |listing| :: listing[i].start <= listing[j].start
  }

  /** By how much longer the masks of the spans that begin at or before `p` are than the spans. */
  function Grown(listing: seq<Finding>, p: nat): int {
    if listing == [] then 0
    else
      var f := listing[0];
      (if f.start <= p && f.start < f.end then |Mask(f)| - (f.end - f.start) else 0) + Grown(listing[1..], p)
  }

  /** The span at `k` still reaches the character of `p` when the spans listed after it have moved it. */
  predicate Reaches(listing: seq<Finding>, k: nat, p: nat)
    requires k < |listing|
  {
    listing[k].start <= p && p + Grown(listing[k + 1..], p) < listing[k].end
  }

  predicate Reached(listing: seq<Finding>, p: nat) {
    exists k | 0 <= k < |listing| :: Reaches(listing, k, p)
  }

  lemma ReachedTail(listing: seq<Finding>, p: nat)
    requires listing != []
    ensures Reached(listing, p) <==> Reaches(listing, 0, p) || Reached(listing[1..], p)
  {
    var rest := listing[1..];
    assert forall k | 0 <= k < |rest| :: rest[k] == listing[k + 1] && rest[k + 1..] == listing[k + 2..];
    if Reached(rest, p) {
      var k :| 0 <= k < |rest| && Reaches(rest, k, p);
      assert Reaches(listing, k + 1, p);
    }
    if Reached(listing, p) && !Reaches(listing, 0, p) {
      var k :| 0 <= k < |listing| && Reaches(listing, k, p);
      assert Reaches(rest, k - 1, p);
    }
  }

  lemma {:induction false} NoneGrown(listing: seq<Finding>, p: nat)
    requires forall i | 0 <= i < |listing| :: p < listing[i].start
    ensures Grown(listing, p) == 0
  {
    if listing != [] {
      NoneGrown(listing[1..], p);
    }
  }

  /** A character that no span has reached stays behind the beginnings of the spans in front of it. */
  lemma {:induction false} StaysBehind(listing: seq<Finding>, p: nat, low: nat)
    requires Sorted(listing) && !Reached(listing, p) && low <= p
    requires forall i | 0 <= i < |listing| :: low <= listing[i].start
    ensures low <= p + Grown(listing, p)
    decreases |listing|
  {
    if listing != [] {
      ReachedTail(listing, p);
      if p < listing[0].start {
        NoneGrown(listing, p);
      } else {
        StaysBehind(listing[1..], p, low);
      }
    }
  }

  /** In a sorted list a character is gone exactly when some span reaches it; otherwise all masks in
      front of it move it. */
  lemma {:induction false} SortedTrack(listing: seq<Finding>, p: nat)
    requires Sorted(listing)
    ensures Reached(listing, p) ==> Track(listing, p).None?
    ensures !Reached(listing, p) ==> p + Grown(listing, p) >= 0 && Track(listing, p) == Some(p + Grown(listing, p))
    decreases |listing|
  {
    if listing != [] {
      var f, rest := listing[0], listing[1..];
      SortedTrack(rest, p);
      ReachedTail(listing, p);
      if p < f.start {
        NoneGrown(rest, p);
      } else if !Reached(rest, p) {
        StaysBehind(rest, p, f.start);
      }
    }
  }

  /** For spans sorted by where they begin, overlapping or not: the masking tells nothing of what they
      cover exactly when each covered character is reached by some span. */
  lemma SortedTellsNothingIff(listing: seq<Finding>, n: nat)
    requires Sorted(listing)
    ensures TellsNothing(listing, n) <==> forall p | 0 <= p < n && Covered(listing, p) :: Reached(listing, p)
  {
    TellsNothingIff(listing, n);
    forall p | 0 <= p < n ensures Track(listing, p).None? <==> Reached(listing, p) {
      SortedTrack(listing, p);
    }
  }

  predicate NeverLonger(listing: seq<Finding>) {
    forall i | 0 <= i < |listing| && listing[i].start < listing[i].end ::
      |Mask(listing[i])| <= listing[i].end - listing[i].start
  }

  lemma {:induction false} NeverGrown(listing: seq<Finding>, p: nat)
    requires NeverLonger(listing)
    ensures Grown(listing, p) <= 0
  {
    if listing != [] {
      NeverGrown(listing[1..], p);
    }
  }

  /** With masks no longer than their spans a sorted list always hides what it covers. */
  lemma ShortMasksHide(listing: seq<Finding>, n: nat)
    requires Sorted(listing) && NeverLonger(listing)
    ensures TellsNothing(listing, n)
  {
    forall p | 0 <= p < n && Covered(listing, p) ensures Reached(listing, p) {
      var k :| 0 <= k < |listing| && listing[k].start <= p < listing[k].end;
      NeverGrown(listing[k + 1..], p);
      assert Reaches(listing, k, p);
    }
    SortedTellsNothingIff(listing, n);
  }

  predicate TwoReachedAt(a: Finding, b: Finding, p: nat) {
    Reached([a, b], p) <==>
      || b.start <= p < b.end
      || (a.start <= p && p + (if b.start <= p then |Mask(b)| - (b.end - b.start) else 0) < a.end)
  }

  lemma TwoReached(a: Finding, b: Finding, p: nat)
    requires a.start <= b.start < b.end && a.start < a.end
    ensures TwoReachedAt(a, b, p)
  {
    assert [a, b][1..] == [b] && [b][1..] == [];
    ReachedTail([a, b], p);
    ReachedTail([b], p);
    assert Grown([], p) == 0;
    assert Grown([b], p) == if b.start <= p then |Mask(b)| - (b.end - b.start) else 0;
    assert Reaches([b], 0, p) <==> b.start <= p < b.end;
  }

  /** Two spans in the order of their beginnings show something covered exactly when the second ends
      before the first and its mask is longer than it. */
  lemma TwoTellNothingIff(a: Finding, b: Finding, n: nat)
    requires a.start <= b.start < b.end && a.start < a.end <= n
    ensures TellsNothing([a, b], n) <==> a.end <= b.end || |Mask(b)| <= b.end - b.start
  {
    SortedTellsNothingIff([a, b], n);
    if a.end <= b.end || |Mask(b)| <= b.end - b.start {
      forall p | 0 <= p < n && Covered([a, b], p) ensures Reached([a, b], p) {
        TwoReached(a, b, p);
      }
    } else {
      TwoReached(a, b, a.end - 1);
      assert [a, b][0] == a && Covered([a, b], a.end - 1);
    }
  }

  /** A list sorted by where the spans begin that leaves the last six of ten covered characters in
      every text. */
  lemma OverlapShows(text: string, a: Finding, b: Finding)
    requires |text| == 10 && a == Finding("A", 0, 10, 1.0) && b == Finding("B", 3, 4, 1.0)
    ensures Spliced(text, [a, b], Mask) == Mask(a) + (Mask(b)[7..] + text[4..])
  {
    assert [a, b][1..] == [b] && [b][1..] == [];
    var once := Splice(text, b, Mask);
    assert Spliced(text, [b], Mask) == once == text[..3] + Mask(b) + text[4..];
    assert |Mask(b)| == 12 && once[10..] == Mask(b)[7..] + text[4..];
    assert once[..0] == [];
  }
}
