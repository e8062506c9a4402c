/** The heading trail each chunk carries, and how early chunks are cut (core/eval/fortios_corpus.py). */
module ChunkTrails {
  import opened Basics
  import opened TokenText
  import opened Chunker

  // ---- the outline of a section ----

  predicate IsHeading(b: Block) {
    b.tag !in {H1, Body}
  }

  /** An open heading: how many levels it lies below a second-level one, and its text. */
  datatype Entry = Entry(depth: nat, text: string)

  function Depth(b: Block): nat
    requires IsHeading(b)
  {
    match b.tag
    case H2 => 0
    case H3 => 1
    case H4 => 2
    case H5 => 3
    case H6 => 4
  }

  /** A heading closes those that are as deep or deeper. */
  function Close(outline: seq<Entry>, depth: nat): seq<Entry> {
    if outline == [] || outline[|outline| - 1].depth < depth then outline else Close(outline[..|outline| - 1], depth)
  }

  /** The headings that are open after the blocks, outermost first. */
  function Outline(blocks: seq<Block>): seq<Entry> {
    if blocks == [] then []
    else
      var before, b := Outline(blocks[..|blocks| - 1]), blocks[|blocks| - 1];
      if IsHeading(b) then Close(before, Depth(b)) + [Entry(Depth(b), b.text)] else before
  }

  function TextsOf(outline: seq<Entry>): seq<string> {
    seq(|outline|, i requires 0 <= i < |outline| => outline[i].text)
  }

  ghost predicate Rising(outline: seq<Entry>) {
    forall i, j :: 0 <= i < j < |outline| ==> outline[i].depth < outline[j].depth
  }

  lemma {:induction false} CloseFacts(outline: seq<Entry>, depth: nat)
    requires Rising(outline)
    ensures Close(outline, depth) <= outline && forall i :: 0 <= i < |outline| ==> (i < |Close(outline, depth)| <==> outline[i].depth < depth)
  {
    if outline != [] && outline[|outline| - 1].depth >= depth {
      CloseFacts(outline[..|outline| - 1], depth);
    }
  }

  lemma {:induction false} OutlineRises(blocks: seq<Block>)
    ensures Rising(Outline(blocks))
  {
    if blocks != [] {
      var before, b := Outline(blocks[..|blocks| - 1]), blocks[|blocks| - 1];
      OutlineRises(blocks[..|blocks| - 1]);
      if IsHeading(b) {
        CloseFacts(before, Depth(b));
      }
    }
  }

  // ---- the trail the chunker keeps ----

  /** The chunker's list of headings after the blocks; the target length does not matter. */
  function Trail(blocks: seq<Block>): seq<string> {
    Pack(blocks, 0).trail
  }

  lemma StepTrail(s: State, b: Block, target: nat)
    ensures Step(s, b, target).trail == if IsHeading(b) then Take(s.trail, Depth(b)) + [b.text] else s.trail
  {
    hide Strip, Join;
  }

  lemma {:induction false} TrailIgnoresTarget(blocks: seq<Block>, target: nat)
    ensures Pack(blocks, target).trail == Trail(blocks)
  {
    hide Step;
    if blocks != [] {
      var init, b := blocks[..|blocks| - 1], blocks[|blocks| - 1];
      TrailIgnoresTarget(init, target);
      StepTrail(Pack(init, target), b, target);
      StepTrail(Pack(init, 0), b, 0);
    }
  }

  /** The headings above the new one's place in the list are all less deep than it. */
  ghost predicate FitsIn(outline: seq<Entry>, depth: nat) {
    forall k :: 0 <= k < |outline| && k < depth ==> outline[k].depth < depth
  }

  /** No heading comes right below one that skipped the new one's level. */
  ghost predicate NoGap(blocks: seq<Block>, p: nat)
    requires p < |blocks|
  {
    IsHeading(blocks[p]) ==> FitsIn(Outline(blocks[..p]), Depth(blocks[p]))
  }

  ghost predicate TrailMatches(blocks: seq<Block>, p: nat)
    requires p <= |blocks|
  {
    Trail(blocks[..p]) == TextsOf(Outline(blocks[..p]))
  }

  lemma {:induction false} DepthAtLeast(outline: seq<Entry>, k: nat)
    requires Rising(outline) && k < |outline|
    ensures outline[k].depth >= k
  {
    if k > 0 {
      DepthAtLeast(outline, k - 1);
    }
  }

  /** A heading at depth d leaves at most d headings open, and that many exactly if there is no gap. */
  lemma KeptAtMost(o: seq<Entry>, d: nat)
    requires Rising(o)
    ensures |Close(o, d)| <= Min(d, |o|) && Close(o, d) <= o
    ensures |Close(o, d)| == Min(d, |o|) <==> FitsIn(o, d)
  {
    CloseFacts(o, d);
    if d < |o| {
      DepthAtLeast(o, d);
    }
    assert |Close(o, d)| < Min(d, |o|) ==> !(o[|Close(o, d)|].depth < d);
  }

  lemma SameTexts(o: seq<Entry>, kept: seq<Entry>, d: nat)
    requires kept <= o && |kept| <= Min(d, |o|)
    ensures Take(TextsOf(o), d) == TextsOf(kept) <==> |kept| == Min(d, |o|)
  {
    assert |Take(TextsOf(o), d)| == Min(d, |o|);
  }

  lemma LastApart(a: seq<string>, b: seq<string>, x: string)
    ensures a + [x] == b + [x] <==> a == b
  {
    if a + [x] == b + [x] {
      assert a == (a + [x])[..|a|] && b == (b + [x])[..|b|];
    }
  }

  lemma NextMatches(blocks: seq<Block>, p: nat)
    requires p < |blocks| && TrailMatches(blocks, p)
    ensures TrailMatches(blocks, p + 1) <==> NoGap(blocks, p)
  {
    hide Step, FitsIn, Close, Take;
    var init, b := blocks[..p], blocks[p];
    assert blocks[..p + 1][..p] == init && blocks[..p + 1][p] == b;
    StepTrail(Pack(init, 0), b, 0);
    if IsHeading(b) {
      var o, d := Outline(init), Depth(b);
      OutlineRises(init);
      KeptAtMost(o, d);
      SameTexts(o, Close(o, d), d);
      assert Trail(blocks[..p + 1]) == Take(TextsOf(o), d) + [b.text];
      assert TextsOf(Close(o, d) + [Entry(d, b.text)]) == TextsOf(Close(o, d)) + [b.text];
      LastApart(Take(TextsOf(o), d), TextsOf(Close(o, d)), b.text);
    }
  }

  lemma NothingMatches(blocks: seq<Block>)
    ensures TrailMatches(blocks, 0)
  {
  }

  /** The list is the outline, throughout the section, if and only if no heading comes into a gap of the outline. */
  lemma {:induction false} TrailIsOutlineIffNoGap(blocks: seq<Block>, n: nat)
    requires n <= |blocks|
    ensures (forall p :: 0 <= p <= n ==> TrailMatches(blocks, p)) <==> (forall p :: 0 <= p < n ==> NoGap(blocks, p))
  {
    hide NoGap, TrailMatches;
    if n == 0 {
      NothingMatches(blocks);
    } else {
      TrailIsOutlineIffNoGap(blocks, n - 1);
      if forall p :: 0 <= p <= n - 1 ==> TrailMatches(blocks, p) {
        assert TrailMatches(blocks, n - 1);
        NextMatches(blocks, n - 1);
        if forall p :: 0 <= p <= n ==> TrailMatches(blocks, p) {
          assert TrailMatches(blocks, n);
        }
      }
    }
  }

  lemma SameDepthCloses(e: Entry)
    ensures Outline([]) == [] && Close([], e.depth) == [] && Close([e], e.depth) == []
  {
  }

  lemma OutlineGrows(init: seq<Block>, b: Block)
    ensures Outline(init + [b])
         == if IsHeading(b) then Close(Outline(init), Depth(b)) + [Entry(Depth(b), b.text)] else Outline(init)
  {
    hide Close;
    assert (init + [b])[..|init|] == init;
  }

  /** What the trail is after one more block. */
  lemma TrailGrows(init: seq<Block>, b: Block)
    ensures Trail(init + [b]) == if IsHeading(b) then Take(Trail(init), Depth(b)) + [b.text] else Trail(init)
  {
    hide Step, Take;
    assert (init + [b])[..|init|] == init;
    StepTrail(Pack(init, 0), b, 0);
  }

  lemma OneHeading(b: Block)
    requires IsHeading(b)
    ensures Trail([b]) == [b.text]
  {
    hide Step;
    TrailGrows([], b);
    assert [] + [b] == [b];
  }

  /** Where the outline is not what the chunker keeps: a section that begins at the third level keeps its first heading over
      the second. */
  lemma GapKeepsHeading()
    ensures var blocks := [Block(H3, "a"), Block(H3, "b")]; Trail(blocks) == ["a", "b"] && TextsOf(Outline(blocks)) == ["b"]
  {
    hide Trail, Outline, Close;
    var first, second := Block(H3, "a"), Block(H3, "b");
    assert [first] + [second] == [first, second];
    OneHeading(first);
    TrailGrows([first], second);
    OutlineGrows([], first);
    OutlineGrows([first], second);
    assert [] + [first] == [first];
    SameDepthCloses(Entry(1, "a"));
    assert Outline([first]) == [Entry(1, "a")] && Outline([first, second]) == [Entry(1, "b")];
    assert ["a"] + ["b"] == ["a", "b"];
  }

  // ---- the chunks' trails ----

  ghost predicate Opens(blocks: seq<Block>, p: nat, n: nat)
    requires p < |blocks|
  {
    blocks[p].tag != H1 && |Content(blocks[..p])| == n
  }

  /** The trail was taken when the n-th block of content, from zero, had been read. */
  ghost predicate TakenAt(blocks: seq<Block>, n: nat, trail: seq<string>) {
    exists p :: 0 <= p < |blocks| && Opens(blocks, p, n) && trail == Trail(blocks[..p + 1])
  }

  /** Every finished chunk has the trail of its first block, and so does the open buffer. */
  ghost predicate TrailsTaken(blocks: seq<Block>, s: State, c: Cut) {
    && |s.chunks| == |c.groups|
    && (forall i :: 0 <= i < |c.groups| ==> TakenAt(blocks, Ahead(c.groups, i), s.chunks[i].trail))
    && (c.open != [] ==> TakenAt(blocks, Ahead(c.groups, |c.groups|), s.bufTrail))
  }

  lemma TakenLater(blocks: seq<Block>, b: Block, n: nat, trail: seq<string>)
    requires TakenAt(blocks, n, trail)
    ensures TakenAt(blocks + [b], n, trail)
  {
    hide Trail, Content;
    var p :| 0 <= p < |blocks| && Opens(blocks, p, n) && trail == Trail(blocks[..p + 1]);
    assert (blocks + [b])[..p] == blocks[..p] && (blocks + [b])[..p + 1] == blocks[..p + 1];
    assert Opens(blocks + [b], p, n);
  }

  lemma TakenNow(blocks: seq<Block>, b: Block)
    requires b.tag != H1
    ensures TakenAt(blocks + [b], |Content(blocks)|, Trail(blocks + [b]))
  {
    hide Trail, Content;
    var all := blocks + [b];
    assert all[..|blocks|] == blocks && all[..|blocks| + 1] == all;
    assert Opens(all, |blocks|, |Content(blocks)|);
  }

  lemma AheadGrows(groups: seq<seq<Block>>, more: seq<Block>, k: nat)
    requires k <= |groups|
    ensures Ahead(groups + [more], k) == Ahead(groups, k)
  {
    assert (groups + [more])[..k] == groups[..k];
  }

  lemma EmitTaken(blocks: seq<Block>, s: State, c: Cut)
    requires Mirrors(s, c) && c.open != [] && TrailsTaken(blocks, s, c)
    ensures TrailsTaken(blocks, Emit(s), Cut(c.groups + [c.open], []))
  {
    hide Strip, Join, TakenAt, Ahead;
    EmitMirrors(s, c);
    forall k | 0 <= k <= |c.groups| ensures Ahead(c.groups + [c.open], k) == Ahead(c.groups, k) {
      AheadGrows(c.groups, c.open, k);
    }
  }

  /** One more block of content, put behind the open ones. */
  lemma PushTaken(blocks: seq<Block>, s: State, c: Cut, b: Block, t: State)
    requires b.tag != H1 && TrailsTaken(blocks, s, c) && Concat(c.groups) + c.open == Content(blocks)
    requires t.chunks == s.chunks && t.bufTrail == if c.open == [] then Trail(blocks + [b]) else s.bufTrail
    ensures TrailsTaken(blocks + [b], t, c.(open := c.open + [b]))
  {
    hide TakenAt, Trail, Content;
    forall i | 0 <= i < |c.groups| ensures TakenAt(blocks + [b], Ahead(c.groups, i), t.chunks[i].trail) {
      TakenLater(blocks, b, Ahead(c.groups, i), s.chunks[i].trail);
    }
    AheadIs(c.groups, c.groups);
    if c.open == [] {
      TakenNow(blocks, b);
    } else {
      TakenLater(blocks, b, Ahead(c.groups, |c.groups|), s.bufTrail);
    }
  }

  lemma TitleTaken(blocks: seq<Block>, s: State, c: Cut, b: Block)
    requires TrailsTaken(blocks, s, c)
    ensures TrailsTaken(blocks + [b], s, c)
  {
    hide TakenAt, Ahead;
    forall i | 0 <= i < |c.groups| ensures TakenAt(blocks + [b], Ahead(c.groups, i), s.chunks[i].trail) {
      TakenLater(blocks, b, Ahead(c.groups, i), s.chunks[i].trail);
    }
    if c.open != [] {
      TakenLater(blocks, b, Ahead(c.groups, |c.groups|), s.bufTrail);
    }
  }

  lemma StartTaken()
    ensures TrailsTaken([], START, Cut([], []))
  {
  }

  lemma MirrorsMeans(s: State, c: Cut)
    requires Mirrors(s, c)
    ensures |s.chunks| == |c.groups| && s.buf == Texts(c.open) && s.bufLen == Length(c.open)
    ensures s.buf == [] <==> c.open == []
  {
  }

  lemma PushMirrors(s: State, c: Cut, b: Block, t: State)
    requires Mirrors(s, c) && Clean(b)
    requires t.chunks == s.chunks && t.buf == s.buf + [b.text]
    requires t.bufLen == s.bufLen + |b.text| + if b.tag == Body then 1 else 0
    ensures Mirrors(t, c.(open := c.open + [b]))
  {
    hide Clean, Length, Texts, BodyOf;
    LengthOfOneMore(c.open, b);
  }

  lemma BodyTaken(init: seq<Block>, s: State, c: Cut, b: Block, target: nat)
    requires b.tag == Body && Clean(b) && Mirrors(s, c) && TrailsTaken(init, s, c)
    requires Concat(c.groups) + c.open == Content(init) && s.trail == Trail(init) == Trail(init + [b])
    ensures TrailsTaken(init + [b], Step(s, b, target), CutStep(c, b, target))
  {
    hide Clean, TrailsTaken, Emit, Length, Texts, Pack, CutAll, Content, Mirrors;
    var t := s.(bufTrail := if s.buf == [] then s.trail else s.bufTrail, buf := s.buf + [b.text], bufLen := s.bufLen + |b.text| + 1);
    var d := c.(open := c.open + [b]);
    MirrorsMeans(s, c);
    PushTaken(init, s, c, b, t);
    PushMirrors(s, c, b, t);
    MirrorsMeans(t, d);
    if Length(d.open) >= target {
      EmitTaken(init + [b], t, d);
    }
  }

  lemma TrailIsAside(blocks: seq<Block>, s: State, c: Cut, t: State)
    requires Mirrors(s, c) && TrailsTaken(blocks, s, c) && t == s.(trail := t.trail)
    ensures Mirrors(t, c) && TrailsTaken(blocks, t, c)
  {
  }

  lemma HeadingTaken(init: seq<Block>, s: State, c: Cut, b: Block, target: nat)
    requires IsHeading(b) && Clean(b) && Mirrors(s, c) && TrailsTaken(init, s, c)
    requires Concat(c.groups) + c.open == Content(init) && Trail(init + [b]) == Take(s.trail, Depth(b)) + [b.text]
    ensures TrailsTaken(init + [b], Step(s, b, target), CutStep(c, b, target))
  {
    hide Clean, TrailsTaken, Emit, Length, Texts, Pack, CutAll, Content, Mirrors, Take, Trail;
    MirrorsMeans(s, c);
    var next := Step(s, b, target);
    if b.tag == H2 && c.open != [] {
      var t := s.(trail := Take(s.trail, 0) + [b.text]);
      var d := Cut(c.groups + [c.open], []);
      TrailIsAside(init, s, c, t);
      EmitTaken(init, t, c);
      EmitEmpties(t);
      assert (c.groups + [c.open])[..|c.groups|] == c.groups;
      assert Concat(d.groups) + d.open == Content(init);
      assert d.open + [b] == [b];
      PushTaken(init, Emit(t), d, b, next);
    } else {
      PushTaken(init, s, c, b, next);
    }
  }

  lemma StepTaken(init: seq<Block>, b: Block, target: nat)
    requires AllClean(init) && Clean(b) && TrailsTaken(init, Pack(init, target), CutAll(init, target))
    ensures TrailsTaken(init + [b], Step(Pack(init, target), b, target), CutStep(CutAll(init, target), b, target))
  {
    hide Clean, TrailsTaken, Emit, Length, Texts, Pack, CutAll, Content, Mirrors;
    var s, c := Pack(init, target), CutAll(init, target);
    PackMirrors(init, target);
    CutKeepsBlocks(init, target);
    TrailIgnoresTarget(init, target);
    TrailGrows(init, b);
    MirrorsMeans(s, c);
    if b.tag == H1 {
      TitleTaken(init, s, c, b);
    } else if b.tag == Body {
      BodyTaken(init, s, c, b, target);
    } else {
      HeadingTaken(init, s, c, b, target);
    }
  }

  lemma {:induction false} PackTaken(blocks: seq<Block>, target: nat)
    requires AllClean(blocks)
    ensures TrailsTaken(blocks, Pack(blocks, target), CutAll(blocks, target))
  {
    hide Step, CutStep, TrailsTaken, Clean, Mirrors;
    if blocks == [] {
      StartTaken();
    } else {
      var init, b := blocks[..|blocks| - 1], blocks[|blocks| - 1];
      assert blocks == init + [b];
      PackTaken(init, target);
      StepTaken(init, b, target);
    }
  }

  /** Before the tail merge, chunk i has the trail that was current after its first block, a heading that begins it
      included. */
  lemma PackedTrails(blocks: seq<Block>, target: nat)
    requires AllClean(blocks)
    ensures var g, chunks := Groups(blocks, target), Packed(blocks, target);
      |chunks| == |g| && forall i :: 0 <= i < |g| ==> TakenAt(blocks, Ahead(g, i), chunks[i].trail)
  {
    hide Clean, TakenAt, Ahead, Emit, Pack, CutAll, Mirrors, Texts;
    var s, c := Pack(blocks, target), CutAll(blocks, target);
    PackTaken(blocks, target);
    PackMirrors(blocks, target);
    MirrorsMeans(s, c);
    if c.open != [] {
      EmitTaken(blocks, s, c);
    }
  }

  /** As they are returned, too: the tail merge leaves the trail of the chunk that goes on. */
  lemma ChunksCarryTrails(blocks: seq<Block>, target: nat)
    requires AllClean(blocks)
    ensures var g, chunks := FinalGroups(blocks, target), Chunks(blocks, target);
      |chunks| == |g| && forall i :: 0 <= i < |g| ==> TakenAt(blocks, Ahead(g, i), chunks[i].trail)
  {
    hide Packed, Groups, Clean, BodyOf, TakenAt, Ahead;
    PackedTrails(blocks, target);
    ChunksAreGroups(blocks, target);
    var g, f := Groups(blocks, target), FinalGroups(blocks, target);
    forall i | 0 <= i < |f| ensures Ahead(f, i) == Ahead(g, i) {
      assert f[..i] == g[..i];
      SameAhead(f, g, i);
    }
  }

  // ---- chunks end as soon as they are long enough ----

  /** No body block before the last one brings the group to the target length. */
  ghost predicate Earliest(group: seq<Block>, target: nat) {
    forall j :: 0 <= j < |group| - 1 && group[j].tag == Body ==> Length(group[..j + 1]) < target
  }

  ghost predicate StillShort(open: seq<Block>, target: nat) {
    forall j :: 0 <= j < |open| && open[j].tag == Body ==> Length(open[..j + 1]) < target
  }

  lemma ShortGrows(open: seq<Block>, b: Block, target: nat)
    requires StillShort(open, target)
    ensures Earliest(open + [b], target) && Earliest(open, target)
    ensures b.tag != Body || Length(open + [b]) < target ==> StillShort(open + [b], target)
  {
    hide Length;
    var more := open + [b];
    forall j | 0 <= j < |open| && more[j].tag == Body ensures Length(more[..j + 1]) < target {
      assert open[j] == more[j] && more[..j + 1] == open[..j + 1];
    }
    assert more[..|open| + 1] == more;
  }

  lemma NoneIsShort(target: nat)
    ensures StillShort([], target)
  {
  }

  lemma {:induction false} CutsAreEarliest(blocks: seq<Block>, target: nat)
    ensures StillShort(CutAll(blocks, target).open, target)
    ensures forall i :: 0 <= i < |CutAll(blocks, target).groups| ==> Earliest(CutAll(blocks, target).groups[i], target)
  {
    hide Length, Earliest, StillShort;
    if blocks == [] {
      NoneIsShort(target);
    } else {
      var init, b := blocks[..|blocks| - 1], blocks[|blocks| - 1];
      CutsAreEarliest(init, target);
      NoneIsShort(target);
      ShortGrows(CutAll(init, target).open, b, target);
      ShortGrows([], b, target);
      assert [] + [b] == [b];
    }
  }

  /** Before the tail merge, no chunk goes on behind a body block that brought it to the target length. */
  lemma GroupsAreEarliest(blocks: seq<Block>, target: nat)
    ensures forall i :: 0 <= i < |Groups(blocks, target)| ==> Earliest(Groups(blocks, target)[i], target)
  {
    hide Length, Earliest, StillShort, CutAll;
    CutsAreEarliest(blocks, target);
    ShortGrows(CutAll(blocks, target).open, Block(H1, ""), target);
  }
}
