/**
 Voice activity: the two detectors, from a file and in memory, and the windows cut from regions.
 Whether the energy of a frame reaches the threshold is a parameter.
 */
module SpeechRegions {
  import opened Wrappers

  const SAMPLE_RATE := 16000
  const FRAME := 480
  const PADDING := 2400
  const MAX_GAP := 7200
  const MINIMUM := 1440

  /** Sample positions, from `start` up to and excluding `end`. */
  datatype Region = Region(start: int, end: int)

  function Min(a: int, b: int): int { if a < b then a else b }
  function Max(a: int, b: int): int { if a < b then b else a }

  // ---------------------------------------------------------------- frames and groups of voiced frames

  function FrameCount(n: nat): nat {
    (n + FRAME - 1) / FRAME
  }

  function FrameAt(samples: seq<real>, k: nat): seq<real>
    requires k * FRAME <= |samples|
  {
    samples[k * FRAME..Min(|samples|, (k + 1) * FRAME)]
  }

  /** Whether each of the first `count` frames is voiced. */
  function Voiced(samples: seq<real>, loud: seq<real> -> bool, count: nat): (frames: seq<bool>)
    requires count <= FrameCount(|samples|)
    ensures |frames| == count
  {
    if count == 0 then [] else Voiced(samples, loud, count - 1) + [loud(FrameAt(samples, count - 1))]
  }

  /** The first and the last frame of a group of voiced frames. */
  datatype Group = Group(first: nat, last: nat)

  datatype Scan = Scan(closed: seq<Group>, current: Option<Group>)

  /** Groups the voiced frames: seventeen unvoiced frames in a row close a group. */
  function Grouped(frames: seq<bool>): Scan {
    if frames == [] then Scan([], None)
    else
      var k := |frames| - 1;
      var before := Grouped(frames[..k]);
      if frames[k] then
        before.(current := Some(Group(if before.current.Some? then before.current.value.first else k, k)))
      else if before.current.Some? && k * FRAME - (before.current.value.last + 1) * FRAME > MAX_GAP then
        Scan(before.closed + [before.current.value], None)
      else before
  }

  function Groups(scan: Scan): seq<Group> {
    scan.closed + if scan.current.Some? then [scan.current.value] else []
  }

  ghost predicate InSome(groups: seq<Group>, k: int) {
    exists i :: 0 <= i < |groups| && groups[i].first <= k <= groups[i].last
  }

  /** One of the next seventeen frames is voiced. */
  ghost predicate VoicedSoon(frames: seq<bool>, k: int) {
    exists j :: 0 <= j < |frames| && k < j <= k + 17 && frames[j]
  }

  /** Groups begin and end with a voiced frame. */
  ghost predicate Tight(frames: seq<bool>, groups: seq<Group>) {
    forall i :: 0 <= i < |groups| ==>
      groups[i].first <= groups[i].last < |frames| && frames[groups[i].first] && frames[groups[i].last]
  }

  ghost predicate FarApart(groups: seq<Group>) {
    forall i, j :: 0 <= i < j < |groups| ==> groups[i].last + 18 <= groups[j].first
  }

  ghost predicate Complete(frames: seq<bool>, groups: seq<Group>) {
    forall k :: 0 <= k < |frames| && frames[k] ==> InSome(groups, k)
  }

  /** No group has a gap of seventeen frames. */
  ghost predicate Dense(frames: seq<bool>, groups: seq<Group>) {
    forall i, k :: 0 <= i < |groups| && groups[i].first <= k < groups[i].last ==> VoicedSoon(frames, k)
  }

  /** What grouping means: nothing voiced is left out, and groups are exactly the runs without a long gap. */
  ghost predicate IsGrouping(frames: seq<bool>, groups: seq<Group>) {
    Tight(frames, groups) && FarApart(groups) && Complete(frames, groups) && Dense(frames, groups)
  }

  lemma {:induction false} VoicedSoonGrows(frames: seq<bool>, more: bool, k: int)
    requires VoicedSoon(frames, k)
    ensures VoicedSoon(frames + [more], k)
  {
    var j :| 0 <= j < |frames| && k < j <= k + 17 && frames[j];
    assert (frames + [more])[j];
  }

  /** The open group is the last one and its last frame is at most seventeen frames back. */
  ghost predicate ScanInvariant(frames: seq<bool>, scan: Scan) {
    && IsGrouping(frames, Groups(scan))
    && (scan.current.Some? ==> |frames| <= scan.current.value.last + 17)
    && (scan.current.None? ==> forall i :: 0 <= i < |scan.closed| ==> scan.closed[i].last + 18 <= |frames|)
  }

  lemma {:induction false} DenseGrows(frames: seq<bool>, groups: seq<Group>, more: bool)
    requires Dense(frames, groups)
    ensures Dense(frames + [more], groups)
  {
    hide VoicedSoon;
    forall i, k | 0 <= i < |groups| && groups[i].first <= k < groups[i].last
      ensures VoicedSoon(frames + [more], k)
    {
      VoicedSoonGrows(frames, more, k);
    }
  }

  lemma {:induction false} GroupsStay(frames: seq<bool>, groups: seq<Group>)
    requires IsGrouping(frames, groups)
    ensures IsGrouping(frames + [false], groups)
  {
    DenseGrows(frames, groups, false);
    hide Dense, InSome;
    var more := frames + [false];
    assert forall k :: 0 <= k < |frames| ==> more[k] == frames[k];
  }

  lemma {:induction false} Contains(groups: seq<Group>, i: nat, k: int)
    requires i < |groups| && groups[i].first <= k <= groups[i].last
    ensures InSome(groups, k)
  {
  }

  lemma {:induction false} StillInSome(groups: seq<Group>, g: Group, h: Group, k: int)
    requires InSome(groups + [g], k) && h.first == g.first && h.last >= g.last
    ensures InSome(groups + [h], k)
  {
    var i :| 0 <= i < |groups + [g]| && (groups + [g])[i].first <= k <= (groups + [g])[i].last;
    Contains(groups + [h], i, k);
  }

  lemma {:induction false} GroupStarts(frames: seq<bool>, groups: seq<Group>)
    requires IsGrouping(frames, groups) && forall i :: 0 <= i < |groups| ==> groups[i].last + 18 <= |frames|
    ensures IsGrouping(frames + [true], groups + [Group(|frames|, |frames|)])
  {
    var more, g := frames + [true], Group(|frames|, |frames|);
    DenseGrows(frames, groups, true);
    assert Dense(more, groups + [g]);
    hide Dense, InSome;
    forall k | 0 <= k < |more| && more[k]
      ensures InSome(groups + [g], k)
    {
      if k < |frames| {
        assert frames[k];
        InSomeOfMore(groups, g, k);
      } else {
        Contains(groups + [g], |groups|, k);
      }
    }
  }

  lemma {:induction false} InSomeOfMore(groups: seq<Group>, g: Group, k: int)
    requires InSome(groups, k)
    ensures InSome(groups + [g], k)
  {
    var i :| 0 <= i < |groups| && groups[i].first <= k <= groups[i].last;
    Contains(groups + [g], i, k);
  }

  lemma {:induction false} DenseExtends(frames: seq<bool>, groups: seq<Group>, g: Group)
    requires Dense(frames, groups + [g]) && g.last < |frames| <= g.last + 17
    ensures Dense(frames + [true], groups + [Group(g.first, |frames|)])
  {
    hide VoicedSoon;
    var before, all := groups + [g], groups + [Group(g.first, |frames|)];
    assert before[|groups|] == g;
    forall i, k | 0 <= i < |all| && all[i].first <= k < all[i].last
      ensures VoicedSoon(frames + [true], k)
    {
      if i == |groups| && k >= g.last {
        LastIsVoiced(frames, k);
      } else {
        assert before[i].first <= k < before[i].last;
        VoicedSoonGrows(frames, true, k);
      }
    }
  }

  lemma {:induction false} LastIsVoiced(frames: seq<bool>, k: int)
    requires k < |frames| <= k + 17
    ensures VoicedSoon(frames + [true], k)
  {
    assert (frames + [true])[|frames|];
  }

  lemma {:induction false} CompleteGrows(frames: seq<bool>, groups: seq<Group>, g: Group)
    requires Complete(frames, groups + [g]) && g.first <= g.last < |frames|
    ensures Complete(frames + [true], groups + [Group(g.first, |frames|)])
  {
    hide InSome;
    var more, h := frames + [true], Group(g.first, |frames|);
    forall k | 0 <= k < |more| && more[k]
      ensures InSome(groups + [h], k)
    {
      if k < |frames| {
        assert frames[k];
        StillInSome(groups, g, h, k);
      } else {
        Contains(groups + [h], |groups|, k);
      }
    }
  }

  lemma {:induction false} EndsGrow(frames: seq<bool>, groups: seq<Group>, g: Group)
    requires Tight(frames, groups + [g]) && FarApart(groups + [g])
    ensures g.first <= g.last < |frames|
    ensures Tight(frames + [true], groups + [Group(g.first, |frames|)]) && FarApart(groups + [Group(g.first, |frames|)])
  {
    var before, after, more := groups + [g], groups + [Group(g.first, |frames|)], frames + [true];
    assert before[|groups|] == g;
    assert more[|frames|] && more[g.first] == frames[g.first];
    forall i | 0 <= i < |groups|
      ensures after[i] == before[i] && after[i].last + 18 <= g.first
    {
    }
  }

  lemma {:induction false} GroupGrows(frames: seq<bool>, groups: seq<Group>, g: Group)
    requires IsGrouping(frames, groups + [g]) && |frames| <= g.last + 17
    ensures IsGrouping(frames + [true], groups + [Group(g.first, |frames|)])
  {
    hide Tight, FarApart, Complete, Dense;
    EndsGrow(frames, groups, g);
    CompleteGrows(frames, groups, g);
    DenseExtends(frames, groups, g);
  }

  lemma {:induction false} GroupedIsGrouping(frames: seq<bool>)
    ensures ScanInvariant(frames, Grouped(frames))
  {
    if frames != [] {
      var k := |frames| - 1;
      var init, before := frames[..k], Grouped(frames[..k]);
      GroupedIsGrouping(init);
      assert frames == init + [frames[k]];
      assert before.current.Some? ==>
        FarApart(Groups(before)) && before.current.value.first <= before.current.value.last by {
        if before.current.Some? {
          assert Groups(before)[|before.closed|] == before.current.value;
        }
      }
      hide IsGrouping, FarApart;
      if frames[k] {
        if before.current.Some? {
          GroupGrows(init, before.closed, before.current.value);
        } else {
          assert Groups(before) == before.closed;
          GroupStarts(init, before.closed);
        }
      } else {
        GroupsStay(init, Groups(before));
        assert Groups(Grouped(frames)) == Groups(before);
        if before.current.Some? && before.current.value.last + 17 <= k {
          ClosedAreOld(init, before.closed, before.current.value);
        }
      }
    }
  }

  lemma {:induction false} ClosedAreOld(frames: seq<bool>, closed: seq<Group>, g: Group)
    requires FarApart(closed + [g]) && g.first <= g.last && g.last + 17 <= |frames|
    ensures forall i :: 0 <= i < |closed + [g]| ==> (closed + [g])[i].last + 18 <= |frames| + 1
  {
    var all := closed + [g];
    assert all[|closed|] == g;
    forall i | 0 <= i < |closed|
      ensures all[i].last + 18 <= |frames| + 1
    {
      assert all[i].last + 18 <= all[|closed|].first;
    }
  }

  ghost predicate Together(groups: seq<Group>, k: int, next: int) {
    exists i :: 0 <= i < |groups| && groups[i].first <= k && next <= groups[i].last
  }

  /** Two neighbouring voiced frames share a group exactly if they are at most seventeen frames apart. */
  lemma {:induction false} NeighboursShareAGroup(frames: seq<bool>, k: nat, next: nat)
    requires k < next < |frames| && frames[k] && frames[next] && forall j :: k < j < next ==> !frames[j]
    ensures Together(Groups(Grouped(frames)), k, next) <==> next - k <= 17
  {
    var groups := Groups(Grouped(frames));
    GroupedIsGrouping(frames);
    hide Grouped, Tight, FarApart, Dense, Together;
    var i :| 0 <= i < |groups| && groups[i].first <= k <= groups[i].last;
    assert InSome(groups, next);
    var j :| 0 <= j < |groups| && groups[j].first <= next <= groups[j].last;
    if i == j {
      SameGroup(frames, groups, i, k, next);
    } else {
      DifferentGroups(frames, groups, i, j, k, next);
    }
  }

  lemma {:induction false} SameGroup(frames: seq<bool>, groups: seq<Group>, i: nat, k: nat, next: nat)
    requires Dense(frames, groups) && i < |groups| && groups[i].first <= k < next <= groups[i].last
    requires next < |frames| && forall f :: k < f < next ==> !frames[f]
    ensures next - k <= 17 && Together(groups, k, next)
  {
    assert VoicedSoon(frames, k);
  }

  lemma {:induction false} Apart(groups: seq<Group>, a: nat, b: nat)
    requires FarApart(groups) && a < |groups| && b < |groups|
    ensures a < b ==> groups[a].last + 18 <= groups[b].first
    ensures b < a ==> groups[b].last + 18 <= groups[a].first
  {
  }

  lemma {:induction false} DifferentGroups(frames: seq<bool>, groups: seq<Group>, i: nat, j: nat, k: nat, next: nat)
    requires Tight(frames, groups) && FarApart(groups) && i < |groups| && j < |groups| && i != j
    requires k < next < |frames| && forall f :: k < f < next ==> !frames[f]
    requires groups[i].first <= k <= groups[i].last && groups[j].first <= next <= groups[j].last
    ensures next - k >= 18 && !Together(groups, k, next)
  {
    Apart(groups, i, j);
    assert groups[i].last <= k && next <= groups[j].first;
    hide FarApart;
    forall m: nat | m < |groups| && groups[m].first <= k
      ensures groups[m].last < next
    {
      Apart(groups, m, j);
    }
  }

  // ---------------------------------------------------------------- from groups to regions

  /** The padded region of a group. */
  function Padded(n: nat, g: Group): Region {
    Region(Max(0, g.first * FRAME - PADDING), Min(n, Min(n, (g.last + 1) * FRAME) + PADDING))
  }

  function PaddedAll(n: nat, groups: seq<Group>): (regions: seq<Region>)
    ensures |regions| == |groups| && forall i :: 0 <= i < |groups| ==> regions[i] == Padded(n, groups[i])
  {
    if groups == [] then [] else PaddedAll(n, groups[..|groups| - 1]) + [Padded(n, groups[|groups| - 1])]
  }

  function LongEnough(regions: seq<Region>): seq<Region> {
    if regions == [] then []
    else
      LongEnough(regions[..|regions| - 1])
      + if regions[|regions| - 1].end - regions[|regions| - 1].start >= MINIMUM then [regions[|regions| - 1]] else []
  }

  /** The regions of a buffer of n samples whose frames are voiced as given. */
  function Regions(n: nat, frames: seq<bool>): seq<Region> {
    LongEnough(PaddedAll(n, Groups(Grouped(frames))))
  }

  function Detected(samples: seq<real>, loud: seq<real> -> bool): seq<Region> {
    Regions(|samples|, Voiced(samples, loud, FrameCount(|samples|)))
  }

  lemma {:induction false} AllLongEnough(regions: seq<Region>)
    requires forall i :: 0 <= i < |regions| ==> regions[i].end - regions[i].start >= MINIMUM
    ensures LongEnough(regions) == regions
  {
    if regions != [] {
      var rest := regions[..|regions| - 1];
      AllLongEnough(rest);
      assert rest + [regions[|regions| - 1]] == regions;
    }
  }

  lemma {:induction false} NoneLongEnough(regions: seq<Region>)
    requires forall i :: 0 <= i < |regions| ==> regions[i].end - regions[i].start < MINIMUM
    ensures LongEnough(regions) == []
  {
    if regions != [] {
      NoneLongEnough(regions[..|regions| - 1]);
    }
  }

  /** Padding makes every region long enough, unless the whole buffer is too short for any. */
  lemma {:induction false} PaddingIsEnough(n: nat, g: Group)
    requires g.first <= g.last < FrameCount(n)
    ensures 0 <= Padded(n, g).start <= g.first * FRAME < Min(n, (g.last + 1) * FRAME) <= Padded(n, g).end <= n
    ensures Padded(n, g).end - Padded(n, g).start >= MINIMUM <==> n >= MINIMUM
  {
    assert g.last * FRAME < n;
  }

  /** A voiced frame lies in one of the regions. */
  ghost predicate Covered(n: nat, regions: seq<Region>, k: nat) {
    exists i :: 0 <= i < |regions| && regions[i].start <= k * FRAME && Min(n, (k + 1) * FRAME) <= regions[i].end
  }

  /**
   The regions are sorted, in range and at least 3360 samples apart, and they cover every voiced
   frame; a buffer of fewer than 1440 samples has none.
   */
  lemma {:induction false} RegionsAreExact(n: nat, frames: seq<bool>)
    requires |frames| == FrameCount(n)
    ensures var regions := Regions(n, frames);
      && (forall i :: 0 <= i < |regions| ==> 0 <= regions[i].start && regions[i].start + MINIMUM <= regions[i].end <= n)
      && (forall i, j :: 0 <= i < j < |regions| ==> regions[i].end + 3360 <= regions[j].start)
      && (n >= MINIMUM ==> forall k :: 0 <= k < |frames| && frames[k] ==> Covered(n, regions, k))
      && (n < MINIMUM ==> regions == [])
  {
    var groups := Groups(Grouped(frames));
    GroupedIsGrouping(frames);
    hide Grouped, Covered, PaddedAll, LongEnough, Groups, FrameCount, IsGrouping;
    PaddedAreExact(n, frames, groups);
    var padded := PaddedAll(n, groups);
    assert forall i :: 0 <= i < |padded| ==> (padded[i].end - padded[i].start >= MINIMUM <==> n >= MINIMUM);
    if n >= MINIMUM {
      forall i | 0 <= i < |padded|
        ensures padded[i].end - padded[i].start >= MINIMUM
      {
      }
      AllLongEnough(padded);
    } else {
      NoneLongEnough(PaddedAll(n, groups));
    }
    assert Regions(n, frames) == if n >= MINIMUM then PaddedAll(n, groups) else [];
  }

  lemma {:induction false} PaddedAreExact(n: nat, frames: seq<bool>, groups: seq<Group>)
    requires |frames| == FrameCount(n) && IsGrouping(frames, groups)
    ensures forall i :: 0 <= i < |PaddedAll(n, groups)| ==>
      var r := PaddedAll(n, groups)[i]; 0 <= r.start && r.end <= n && (r.end - r.start >= MINIMUM <==> n >= MINIMUM)
    ensures forall i, j :: 0 <= i < j < |PaddedAll(n, groups)| ==>
      PaddedAll(n, groups)[i].end + 3360 <= PaddedAll(n, groups)[j].start
    ensures forall k :: 0 <= k < |frames| && frames[k] ==> Covered(n, PaddedAll(n, groups), k)
  {
    hide Dense, VoicedSoon;
    forall i | 0 <= i < |groups|
      ensures groups[i].first <= groups[i].last < FrameCount(n)
    {
    }
    forall i | 0 <= i < |groups|
      ensures 0 <= Padded(n, groups[i]).start && Padded(n, groups[i]).end <= n
      ensures Padded(n, groups[i]).end - Padded(n, groups[i]).start >= MINIMUM <==> n >= MINIMUM
    {
      PaddingIsEnough(n, groups[i]);
    }
    forall i, j | 0 <= i < j < |groups|
      ensures Padded(n, groups[i]).end + 3360 <= Padded(n, groups[j]).start
    {
      assert groups[i].last + 18 <= groups[j].first;
    }
    hide FrameCount, Tight, FarApart;
    forall k | 0 <= k < |frames| && frames[k]
      ensures Covered(n, PaddedAll(n, groups), k)
    {
      CoveredByItsGroup(n, groups, k);
    }
  }

  lemma {:induction false} CoveredByItsGroup(n: nat, groups: seq<Group>, k: nat)
    requires InSome(groups, k)
    ensures Covered(n, PaddedAll(n, groups), k)
  {
    var i :| 0 <= i < |groups| && groups[i].first <= k <= groups[i].last;
    assert PaddedAll(n, groups)[i] == Padded(n, groups[i]);
  }

  // ---------------------------------------------------------------- the two detectors

  /** The loops' variables after `k` frames: `start` is negative while no group is open. */
  ghost predicate Scanned(n: nat, frames: seq<bool>, k: nat, regions: seq<Region>, start: int, lastVoicedEnd: int)
    requires k <= |frames|
  {
    var scan := Grouped(frames[..k]);
    && regions == PaddedAll(n, scan.closed)
    && (scan.current.None? ==> start == -1)
    && (scan.current.Some? ==>
      start == scan.current.value.first * FRAME && lastVoicedEnd == Min(n, (scan.current.value.last + 1) * FRAME))
  }

  lemma {:induction false} OpensAt(n: nat, frames: seq<bool>, k: nat, regions: seq<Region>, start: int,
      lastVoicedEnd: int)
    requires |frames| == FrameCount(n) && k < |frames| && frames[k]
      && Scanned(n, frames, k, regions, start, lastVoicedEnd)
    ensures Scanned(n, frames, k + 1, regions, if start < 0 then k * FRAME else start, Min(n, k * FRAME + FRAME))
  {
    assert frames[..k + 1][..k] == frames[..k];
  }

  lemma {:induction false} PassesAt(n: nat, frames: seq<bool>, k: nat, regions: seq<Region>, start: int,
      lastVoicedEnd: int, stale: int)
    requires |frames| == FrameCount(n) && k < |frames| && !frames[k]
      && Scanned(n, frames, k, regions, start, lastVoicedEnd)
    ensures !(start >= 0 && k * FRAME - lastVoicedEnd > MAX_GAP) ==>
      Scanned(n, frames, k + 1, regions, start, lastVoicedEnd)
    ensures start >= 0 && k * FRAME - lastVoicedEnd > MAX_GAP ==>
      Scanned(n, frames, k + 1, regions + [Region(Max(0, start - PADDING), Min(n, lastVoicedEnd + PADDING))], -1, stale)
  {
    var scan, next := Grouped(frames[..k]), Grouped(frames[..k + 1]);
    LastFrameIsBehind(n, frames, k);
    OneMoreFrame(frames, k);
    hide Grouped, FrameCount, PaddedAll;
    if scan.current.Some? {
      OneMorePadded(n, scan.closed, scan.current.value);
    }
  }

  lemma {:induction false} OneMoreFrame(frames: seq<bool>, k: nat)
    requires k < |frames| && !frames[k]
    ensures var scan := Grouped(frames[..k]);
      Grouped(frames[..k + 1]) ==
        if scan.current.Some? && k * FRAME - (scan.current.value.last + 1) * FRAME > MAX_GAP
        then Scan(scan.closed + [scan.current.value], None) else scan
  {
    assert frames[..k + 1][..k] == frames[..k];
  }

  lemma {:induction false} OneMorePadded(n: nat, groups: seq<Group>, g: Group)
    ensures PaddedAll(n, groups + [g]) == PaddedAll(n, groups) + [Padded(n, g)]
  {
    assert (groups + [g])[..|groups|] == groups;
  }

  lemma {:induction false} LastFrameIsBehind(n: nat, frames: seq<bool>, k: nat)
    requires |frames| == FrameCount(n) && k < |frames|
    ensures Grouped(frames[..k]).current.Some? ==>
      Min(n, (Grouped(frames[..k]).current.value.last + 1) * FRAME)
        == (Grouped(frames[..k]).current.value.last + 1) * FRAME
  {
    var scan := Grouped(frames[..k]);
    GroupedIsGrouping(frames[..k]);
    hide Grouped, FarApart, Complete, Dense;
    if scan.current.Some? {
      assert Groups(scan)[|scan.closed|] == scan.current.value;
      BehindEnd(n, k, scan.current.value.last);
    }
  }

  lemma {:induction false} BehindEnd(n: nat, k: nat, last: nat)
    requires last < k < FrameCount(n)
    ensures (last + 1) * FRAME <= k * FRAME < n
  {
  }

  lemma {:induction false} EndsAt(n: nat, frames: seq<bool>, regions: seq<Region>, start: int, lastVoicedEnd: int)
    requires Scanned(n, frames, |frames|, regions, start, lastVoicedEnd)
    ensures LongEnough(if start >= 0 then regions + [Region(Max(0, start - PADDING), Min(n, lastVoicedEnd + PADDING))]
      else regions)
         == Regions(n, frames)
  {
    assert frames[..|frames|] == frames;
    var scan := Grouped(frames);
    if scan.current.Some? {
      assert (scan.closed + [scan.current.value])[..|scan.closed|] == scan.closed;
    } else {
      assert Groups(scan) == scan.closed;
    }
  }

  lemma {:induction false} VoicedAt(samples: seq<real>, loud: seq<real> -> bool, count: nat, k: nat)
    requires k < count <= FrameCount(|samples|)
    ensures Voiced(samples, loud, count)[k] == loud(FrameAt(samples, k))
  {
    if k < count - 1 {
      VoicedAt(samples, loud, count - 1, k);
    }
  }

  method Filter(raw: seq<Region>) returns (regions: seq<Region>)
    ensures regions == LongEnough(raw)
  {
    regions := [];
    for i := 0 to |raw|
      invariant regions == LongEnough(raw[..i])
    {
      assert raw[..i + 1][..i] == raw[..i];
      if raw[i].end - raw[i].start >= MINIMUM {
        regions := regions + [raw[i]];
      }
    }
    assert raw[..|raw|] == raw;
  }

  method DetectSpeechRegions(samples: seq<real>, loud: seq<real> -> bool) returns (regions: seq<Region>)
    ensures regions == Detected(samples, loud)
  {
    hide Grouped, Scanned, Voiced;
    var n := |samples|;
    ghost var frames := Voiced(samples, loud, FrameCount(n));
    var raw, start, lastVoicedEnd, k := [], -1, -1, 0;
    NothingScanned(n, frames, lastVoicedEnd);
    while k * FRAME < n
      invariant k <= FrameCount(n)
      invariant Scanned(n, frames, k, raw, start, lastVoicedEnd)
      decreases n - k * FRAME
    {
      var offset := k * FRAME;
      var end := Min(n, offset + FRAME);
      VoicedAt(samples, loud, FrameCount(n), k);
      if loud(samples[offset..end]) {
        OpensAt(n, frames, k, raw, start, lastVoicedEnd);
        if start < 0 {
          start := offset;
        }
        lastVoicedEnd := end;
      } else {
        PassesAt(n, frames, k, raw, start, lastVoicedEnd, -1);
        if start >= 0 && offset - lastVoicedEnd > MAX_GAP {
          raw := raw + [Region(Max(0, start - PADDING), Min(n, lastVoicedEnd + PADDING))];
          start, lastVoicedEnd := -1, -1;
        }
      }
      k := k + 1;
    }
    EndsAt(n, frames, raw, start, lastVoicedEnd);
    if start >= 0 {
      raw := raw + [Region(Max(0, start - PADDING), Min(n, lastVoicedEnd + PADDING))];
    }
    regions := Filter(raw);
  }

  lemma {:induction false} NothingScanned(n: nat, frames: seq<bool>, lastVoicedEnd: int)
    ensures Scanned(n, frames, 0, [], -1, lastVoicedEnd)
  {
  }

  datatype ReadError = DecodeFailed

  /**
   The streamed detector reads one frame at a time from the file and keeps no samples; it never
   resets `lastVoicedEnd`. On a complete file it returns what the detector in memory returns.
   */
  method DetectSpeechRegionsFromFile(file: seq<real>, samplesCount: nat, loud: seq<real> -> bool)
    returns (result: Result<seq<Region>, ReadError>)
    ensures samplesCount <= |file| ==> result == Success(Detected(file[..samplesCount], loud))
    ensures samplesCount > |file| ==> result == Failure(DecodeFailed)
  {
    hide Grouped, Scanned, Voiced;
    var n := samplesCount;
    var complete := if n <= |file| then n else |file|;
    ghost var frames := if n <= |file| then Voiced(file[..n], loud, FrameCount(n)) else seq(FrameCount(n), _ => false);
    var regions, start, lastVoicedEnd, k := [], -1, -1, 0;
    NothingScanned(n, frames, lastVoicedEnd);
    while k * FRAME < n
      invariant k <= FrameCount(n) && (|file| < n ==> k * FRAME <= |file|)
      invariant n <= |file| ==> Scanned(n, frames, k, regions, start, lastVoicedEnd)
      decreases n - k * FRAME
    {
      var offset := k * FRAME;
      var count := Min(FRAME, n - offset);
      if offset + count > |file| {
        return Failure(DecodeFailed);
      }
      var frame := file[offset..offset + count];
      if n <= |file| {
        VoicedAt(file[..n], loud, FrameCount(n), k);
        assert FrameAt(file[..n], k) == frame;
        if loud(frame) {
          OpensAt(n, frames, k, regions, start, lastVoicedEnd);
        } else {
          PassesAt(n, frames, k, regions, start, lastVoicedEnd, lastVoicedEnd);
        }
      }
      if loud(frame) {
        if start < 0 {
          start := offset;
        }
        lastVoicedEnd := offset + count;
      } else if start >= 0 && offset - lastVoicedEnd > MAX_GAP {
        regions := regions + [Region(Max(0, start - PADDING), Min(n, lastVoicedEnd + PADDING))];
        start := -1;
      }
      k := k + 1;
    }
    EndsAt(n, frames, regions, start, lastVoicedEnd);
    if start >= 0 {
      regions := regions + [Region(Max(0, start - PADDING), Min(n, lastVoicedEnd + PADDING))];
    }
    regions := Filter(regions);
    return Success(regions);
  }

  // ---------------------------------------------------------------- windows cut from regions

  /** At most thirty seconds, at least one sample; a missing or zero length means thirty seconds. */
  function WindowSamples(chunkSeconds: Option<real>): (samples: nat)
    ensures 1 <= samples <= 30 * SAMPLE_RATE
  {
    var seconds := if chunkSeconds.None? || chunkSeconds.value == 0.0 then 30.0 else chunkSeconds.value;
    var bounded := if seconds < 30.0 then seconds else 30.0;
    Max(1, (bounded * SAMPLE_RATE as real).Floor)
  }

  function StrideSamples(maximum: nat, strideSeconds: Option<real>): (stride: nat)
    requires maximum >= 1
    ensures stride < maximum
  {
    var seconds := if strideSeconds.None? then 0.0 else strideSeconds.value;
    Min(maximum - 1, Max(0, (seconds * SAMPLE_RATE as real).Floor))
  }

  ghost predicate Sorted(regions: seq<Region>) {
    forall i, j :: 0 <= i < j < |regions| ==> regions[i].start <= regions[j].start
  }

  ghost predicate Holds(outer: seq<Region>, r: Region) {
    exists i :: 0 <= i < |outer| && outer[i].start <= r.start && r.end <= outer[i].end
  }

  ghost predicate InChunk(chunks: seq<Region>, p: int) {
    exists i :: 0 <= i < |chunks| && chunks[i].start <= p < chunks[i].end
  }

  /** Some chunk holds every position of the region. */
  ghost predicate CoveredUpTo(chunks: seq<Region>, start: int, end: int) {
    forall p :: start <= p < end ==> InChunk(chunks, p)
  }

  /** The voiced fragments merged into windows: each region lies in one of them. */
  method Aggregate(regions: seq<Region>, maximum: nat) returns (aggregated: seq<Region>)
    ensures |aggregated| <= |regions|
    ensures Sorted(regions) ==> forall i :: 0 <= i < |regions| ==> Holds(aggregated, regions[i])
  {
    hide Holds;
    aggregated := [];
    for i := 0 to |regions|
      invariant |aggregated| <= i
      invariant i > 0 && Sorted(regions) ==>
        aggregated != [] && aggregated[|aggregated| - 1].start <= regions[i - 1].start
      invariant Sorted(regions) ==> forall j :: 0 <= j < i ==> Holds(aggregated, regions[j])
    {
      var region := regions[i];
      ghost var before := aggregated;
      var merges := aggregated != [] && region.end - aggregated[|aggregated| - 1].start <= maximum;
      if merges {
        var previous := aggregated[|aggregated| - 1];
        aggregated := aggregated[|aggregated| - 1 := Region(previous.start, Max(previous.end, region.end))];
      } else {
        aggregated := aggregated + [region];
      }
      forall j | 0 <= j < i && Sorted(regions)
        ensures Holds(aggregated, regions[j])
      {
        StillHolds(before, aggregated, regions[j]);
      }
      if Sorted(regions) {
        HoldsLast(aggregated, region);
      }
    }
  }

  lemma {:induction false} StillHolds(before: seq<Region>, after: seq<Region>, r: Region)
    requires Holds(before, r) && |before| <= |after|
    requires forall i :: 0 <= i < |before| ==> before[i].start == after[i].start && before[i].end <= after[i].end
    ensures Holds(after, r)
  {
    var i :| 0 <= i < |before| && before[i].start <= r.start && r.end <= before[i].end;
    assert after[i].start <= r.start;
  }

  lemma {:induction false} HoldsLast(outer: seq<Region>, r: Region)
    requires outer != [] && outer[|outer| - 1].start <= r.start && r.end <= outer[|outer| - 1].end
    ensures Holds(outer, r)
  {
  }

  /** Cuts one region into overlapping windows. */
  method Cut(region: Region, maximum: nat, stride: nat, before: seq<Region>) returns (chunks: seq<Region>)
    requires stride < maximum
    ensures before <= chunks && CoveredUpTo(chunks, region.start, region.end)
    ensures forall i :: |before| <= i < |chunks| ==>
      region.start <= chunks[i].start < chunks[i].end <= region.end && chunks[i].end - chunks[i].start <= maximum
  {
    hide CoveredUpTo;
    chunks := before;
    NothingToCover(chunks, region.start);
    var start := region.start;
    while start < region.end
      invariant before <= chunks && region.start <= start && CoveredUpTo(chunks, region.start, start)
      invariant forall i :: |before| <= i < |chunks| ==>
        region.start <= chunks[i].start < chunks[i].end <= region.end && chunks[i].end - chunks[i].start <= maximum
      decreases region.end - start
    {
      var end := Min(region.end, start + maximum);
      CoverMore(chunks, region.start, start, end);
      chunks := chunks + [Region(start, end)];
      if end >= region.end {
        return;
      }
      CoverLess(chunks, region.start, start + (maximum - stride), end);
      start := start + (maximum - stride);
    }
    CoverLess(chunks, region.start, region.end, start);
  }

  lemma {:induction false} NothingToCover(chunks: seq<Region>, start: int)
    ensures CoveredUpTo(chunks, start, start)
  {
  }

  lemma {:induction false} CoverLess(chunks: seq<Region>, start: int, less: int, end: int)
    requires less <= end && CoveredUpTo(chunks, start, end)
    ensures CoveredUpTo(chunks, start, less)
  {
  }

  lemma {:induction false} CoverMore(chunks: seq<Region>, start: int, middle: int, end: int)
    requires CoveredUpTo(chunks, start, middle)
    ensures CoveredUpTo(chunks + [Region(middle, end)], start, end)
  {
    hide InChunk;
    forall p | start <= p < end
      ensures InChunk(chunks + [Region(middle, end)], p)
    {
      if p < middle {
        ChunkStays(chunks, [Region(middle, end)], p);
      } else {
        LastChunk(chunks, Region(middle, end), p);
      }
    }
  }

  lemma {:induction false} ChunkStays(chunks: seq<Region>, more: seq<Region>, p: int)
    requires InChunk(chunks, p)
    ensures InChunk(chunks + more, p)
  {
    var i :| 0 <= i < |chunks| && chunks[i].start <= p < chunks[i].end;
    assert (chunks + more)[i] == chunks[i];
  }

  lemma {:induction false} LastChunk(chunks: seq<Region>, last: Region, p: int)
    requires last.start <= p < last.end
    ensures InChunk(chunks + [last], p)
  {
    assert (chunks + [last])[|chunks|] == last;
  }

  /** Chunks are never empty and never longer than the window; of sorted regions nothing is left out. */
  method ChunkRegions(regions: seq<Region>, chunkSeconds: Option<real>, strideSeconds: Option<real>)
    returns (chunks: seq<Region>)
    ensures forall i :: 0 <= i < |chunks| ==> 0 < chunks[i].end - chunks[i].start <= WindowSamples(chunkSeconds)
    ensures Sorted(regions) ==> forall i :: 0 <= i < |regions| ==> CoveredUpTo(chunks, regions[i].start, regions[i].end)
  {
    hide CoveredUpTo, WindowSamples, StrideSamples, Holds;
    var maximum := WindowSamples(chunkSeconds);
    var stride := StrideSamples(maximum, strideSeconds);
    var aggregated := Aggregate(regions, maximum);
    chunks := [];
    for k := 0 to |aggregated|
      invariant forall i :: 0 <= i < |chunks| ==> 0 < chunks[i].end - chunks[i].start <= maximum
      invariant forall j :: 0 <= j < k ==> CoveredUpTo(chunks, aggregated[j].start, aggregated[j].end)
    {
      ghost var before := chunks;
      chunks := Cut(aggregated[k], maximum, stride, chunks);
      forall j | 0 <= j < k
        ensures CoveredUpTo(chunks, aggregated[j].start, aggregated[j].end)
      {
        CoverStays(before, chunks, aggregated[j]);
      }
    }
    forall i | 0 <= i < |regions| && Sorted(regions)
      ensures CoveredUpTo(chunks, regions[i].start, regions[i].end)
    {
      InnerCovered(chunks, aggregated, regions[i]);
    }
  }

  lemma {:induction false} CoverStays(before: seq<Region>, after: seq<Region>, r: Region)
    requires before <= after && CoveredUpTo(before, r.start, r.end)
    ensures CoveredUpTo(after, r.start, r.end)
  {
    hide InChunk;
    forall p | r.start <= p < r.end
      ensures InChunk(after, p)
    {
      ChunkStays(before, after[|before|..], p);
      assert before + after[|before|..] == after;
    }
  }

  lemma {:induction false} InnerCovered(chunks: seq<Region>, aggregated: seq<Region>, r: Region)
    requires Holds(aggregated, r)
    requires forall j :: 0 <= j < |aggregated| ==> CoveredUpTo(chunks, aggregated[j].start, aggregated[j].end)
    ensures CoveredUpTo(chunks, r.start, r.end)
  {
    hide InChunk;
    var j :| 0 <= j < |aggregated| && aggregated[j].start <= r.start && r.end <= aggregated[j].end;
    assert CoveredUpTo(chunks, aggregated[j].start, aggregated[j].end);
  }
}
