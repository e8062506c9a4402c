/** Structure-aware chunking of one section's blocks (core/eval/fortios_corpus.py). */
module Chunker {
  import opened Basics
  import opened TokenText

  datatype Tag = H1 | H2 | H3 | H4 | H5 | H6 | Body

  datatype Block = Block(tag: Tag, text: string)

  /** A chunk: its number within the section, the headings above it, and its text. */
  datatype Chunk = Chunk(number: nat, trail: seq<string>, text: string)

  const TINY := 60

  function Strip(t: string): string {
    LStrip(RStrip(t))
  }

  function Level(tag: Tag): nat {
    match tag
    case H1 => 1
    case H2 => 2
    case H3 => 3
    case H4 => 4
    case H5 => 5
    case H6 => 6
    case Body => 7
  }

  // ---- the packing loop ----

  datatype State = State(chunks: seq<Chunk>, buf: seq<string>, bufLen: nat, bufTrail: seq<string>, trail: seq<string>)

  const START := State([], [], 0, [], [])

  function Emit(s: State): State {
    var body := Strip(Join("\n", s.buf));
    State(if body != "" then s.chunks + [Chunk(|s.chunks|, s.bufTrail, body)] else s.chunks, [], 0, s.bufTrail, s.trail)
  }

  function Step(s: State, b: Block, target: nat): State {
    match b.tag
    case H1 => s
    case Body =>
      var t := s.(bufTrail := if s.buf == [] then s.trail else s.bufTrail,
                  buf := s.buf + [b.text], bufLen := s.bufLen + |b.text| + 1);
      if t.bufLen >= target then Emit(t) else t
    case _ =>
      var trail := Take(s.trail, Level(b.tag) - 2) + [b.text];
      var t := s.(trail := trail);
      var u := if b.tag == H2 && t.buf != [] then Emit(t) else t;
      u.(bufTrail := if u.buf == [] then trail else u.bufTrail, buf := u.buf + [b.text], bufLen := u.bufLen + |b.text|)
  }

  function Pack(blocks: seq<Block>, target: nat): State {
    if blocks == [] then START else Step(Pack(blocks[..|blocks| - 1], target), blocks[|blocks| - 1], target)
  }

  function Packed(blocks: seq<Block>, target: nat): seq<Chunk> {
    var s := Pack(blocks, target);
    if s.buf != [] then Emit(s).chunks else s.chunks
  }

  /** A trailing tiny chunk joins its predecessor. */
  function MergeTail(chunks: seq<Chunk>): seq<Chunk> {
    var n := |chunks|;
    if n >= 2 && |chunks[n - 1].text| < TINY then
      chunks[..n - 2] + [chunks[n - 2].(text := chunks[n - 2].text + "\n" + chunks[n - 1].text)]
    else chunks
  }

  function Chunks(blocks: seq<Block>, target: nat): seq<Chunk> {
    MergeTail(Packed(blocks, target))
  }

  class Builder {
    var chunks: seq<Chunk>
    var buf: seq<string>
    var bufLen: nat
    var bufTrail: seq<string>
    var trail: seq<string>

    constructor ()
      ensures View() == START
    {
      chunks, buf, bufLen, bufTrail, trail := [], [], 0, [], [];
    }

    function View(): State
      reads this
    {
      State(chunks, buf, bufLen, bufTrail, trail)
    }

    method EmitChunk()
      modifies this
      ensures View() == Emit(old(View()))
    {
      var body := Strip(Join("\n", buf));
      if body != "" {
        chunks := chunks + [Chunk(|chunks|, bufTrail, body)];
      }
      buf, bufLen := [], 0;
    }

    method AddHeading(b: Block)
      requires b.tag !in {H1, Body}
      modifies this
      ensures forall target :: View() == Step(old(View()), b, target)
    {
      trail := Take(trail, Level(b.tag) - 2);
      trail := trail + [b.text];
      if b.tag == H2 && buf != [] {
        EmitChunk();
      }
      if buf == [] {
        bufTrail := trail;
      }
      buf := buf + [b.text];
      bufLen := bufLen + |b.text|;
    }

    method AddBody(b: Block, target: nat)
      requires b.tag == Body
      modifies this
      ensures View() == Step(old(View()), b, target)
    {
      if buf == [] {
        bufTrail := trail;
      }
      buf := buf + [b.text];
      bufLen := bufLen + |b.text| + 1;
      if bufLen >= target {
        EmitChunk();
      }
    }
  }

  lemma HeadingOnly(s: State, b: Block, target: nat)
    ensures b.tag == H1 ==> Step(s, b, target) == s
  {
  }

  method ChunkSection(blocks: seq<Block>, target: nat) returns (chunks: seq<Chunk>)
    ensures chunks == Chunks(blocks, target)
  {
    hide Step, Emit;
    var builder := new Builder();
    for i := 0 to |blocks|
      invariant builder.View() == Pack(blocks[..i], target)
    {
      assert blocks[..i + 1][..i] == blocks[..i];
      HeadingOnly(builder.View(), blocks[i], target);
      if blocks[i].tag == H1 {
        continue;
      }
      if blocks[i].tag == Body {
        builder.AddBody(blocks[i], target);
      } else {
        builder.AddHeading(blocks[i]);
      }
    }
    assert blocks[..|blocks|] == blocks;
    if builder.buf != [] {
      builder.EmitChunk();
    }
    chunks := MergeTail(builder.chunks);
  }

  // ---- the blocks behind the chunks ----

  function Texts(blocks: seq<Block>): seq<string> {
    seq(|blocks|, i requires 0 <= i < |blocks| => blocks[i].text)
  }

  function BodyOf(blocks: seq<Block>): string {
    Join("\n", Texts(blocks))
  }

  function Content(blocks: seq<Block>): seq<Block> {
    Filter((b: Block) => b.tag != H1, blocks)
  }

  /** Blocks as the page parser delivers them: text with no white space at either end. */
  ghost predicate Clean(b: Block) {
    b.text != "" && !IsSpace(b.text[0]) && !IsSpace(b.text[|b.text| - 1])
  }

  ghost predicate AllClean(blocks: seq<Block>) {
    forall i :: 0 <= i < |blocks| ==> Clean(blocks[i])
  }

  /** The packing length of a run of blocks: body blocks count one more. */
  function Length(blocks: seq<Block>): nat {
    if blocks == [] then 0
    else
      var b := blocks[|blocks| - 1];
      Length(blocks[..|blocks| - 1]) + |b.text| + if b.tag == Body then 1 else 0
  }

  /** The same cuts, made on blocks: the finished groups and the one still open. */
  datatype Cut = Cut(groups: seq<seq<Block>>, open: seq<Block>)

  function CutStep(c: Cut, b: Block, target: nat): Cut {
    if b.tag == H1 then c
    else if b.tag == Body then
      if Length(c.open + [b]) >= target then Cut(c.groups + [c.open + [b]], []) else c.(open := c.open + [b])
    else if b.tag == H2 && c.open != [] then Cut(c.groups + [c.open], [b])
    else c.(open := c.open + [b])
  }

  function CutAll(blocks: seq<Block>, target: nat): Cut {
    if blocks == [] then Cut([], []) else CutStep(CutAll(blocks[..|blocks| - 1], target), blocks[|blocks| - 1], target)
  }

  function Groups(blocks: seq<Block>, target: nat): seq<seq<Block>> {
    var c := CutAll(blocks, target);
    if c.open != [] then c.groups + [c.open] else c.groups
  }

  ghost predicate Mirrors(s: State, c: Cut) {
    && |s.chunks| == |c.groups| && s.buf == Texts(c.open) && s.bufLen == Length(c.open)
    && (forall i :: 0 <= i < |c.groups| ==>
          c.groups[i] != [] && AllClean(c.groups[i]) && s.chunks[i].number == i && s.chunks[i].text == BodyOf(c.groups[i]))
    && AllClean(c.open)
  }

  lemma LengthOfOneMore(blocks: seq<Block>, b: Block)
    ensures Length(blocks + [b]) == Length(blocks) + |b.text| + if b.tag == Body then 1 else 0
    ensures Texts(blocks + [b]) == Texts(blocks) + [b.text]
  {
    assert (blocks + [b])[..|blocks|] == blocks;
  }

  lemma {:induction false} BodyEnds(blocks: seq<Block>)
    requires blocks != [] && AllClean(blocks)
    ensures var t := BodyOf(blocks); t != "" && !IsSpace(t[0]) && !IsSpace(t[|t| - 1])
  {
    hide IsSpace;
    var texts := Texts(blocks);
    assert Clean(blocks[0]);
    if |blocks| > 1 {
      var rest := blocks[1..];
      assert Texts(rest) == texts[1..];
      assert forall i :: 0 <= i < |rest| ==> rest[i] == blocks[i + 1];
      BodyEnds(rest);
      assert BodyOf(blocks) == blocks[0].text + "\n" + BodyOf(rest);
    }
  }

  lemma StripClean(t: string)
    requires t != "" && !IsSpace(t[0]) && !IsSpace(t[|t| - 1])
    ensures Strip(t) == t
  {
  }

  lemma EmitMirrors(s: State, c: Cut)
    requires Mirrors(s, c) && c.open != []
    ensures Mirrors(Emit(s), Cut(c.groups + [c.open], []))
  {
    hide Strip, Clean, IsSpace;
    BodyEnds(c.open);
    StripClean(BodyOf(c.open));
  }

  lemma NothingOpen()
    ensures Length([]) == 0 && Texts([]) == []
  {
  }

  lemma OpenIs(blocks: seq<Block>)
    ensures Texts(blocks) == [] <==> blocks == []
  {
  }

  lemma EmitEmpties(s: State)
    ensures Emit(s).buf == [] && Emit(s).bufLen == 0
  {
  }

  lemma StepMirrors(s: State, c: Cut, b: Block, target: nat)
    requires Mirrors(s, c) && Clean(b)
    ensures Mirrors(Step(s, b, target), CutStep(c, b, target))
  {
    hide Clean, Emit, Length, Texts, BodyOf;
    LengthOfOneMore(c.open, b);
    LengthOfOneMore([], b);
    assert [] + [b] == [b];
    NothingOpen();
    if b.tag == Body {
      var t := s.(bufTrail := if s.buf == [] then s.trail else s.bufTrail, buf := s.buf + [b.text], bufLen := s.bufLen + |b.text| + 1);
      var d := c.(open := c.open + [b]);
      assert Mirrors(t, d);
      EmitMirrors(t, d);
    } else if b.tag != H1 {
      var t := s.(trail := Take(s.trail, Level(b.tag) - 2) + [b.text]);
      if b.tag == H2 && t.buf != [] {
        OpenIs(c.open);
        EmitMirrors(t, c);
        EmitEmpties(t);
      } else {
        OpenIs(c.open);
      }
    }
  }

  lemma {:induction false} PackMirrors(blocks: seq<Block>, target: nat)
    requires AllClean(blocks)
    ensures Mirrors(Pack(blocks, target), CutAll(blocks, target))
  {
    hide Clean, Step, CutStep;
    if blocks != [] {
      PackMirrors(blocks[..|blocks| - 1], target);
      StepMirrors(Pack(blocks[..|blocks| - 1], target), CutAll(blocks[..|blocks| - 1], target), blocks[|blocks| - 1], target);
    }
  }

  /** Before the tail merge, chunk i is the text of group i, numbered i. */
  lemma ChunksAreGroups(blocks: seq<Block>, target: nat)
    requires AllClean(blocks)
    ensures var g, chunks := Groups(blocks, target), Packed(blocks, target);
      |chunks| == |g| && forall i :: 0 <= i < |g| ==> g[i] != [] && chunks[i].number == i && chunks[i].text == BodyOf(g[i])
  {
    hide Clean, Emit, Pack, CutAll, Length, BodyOf;
    var s, c := Pack(blocks, target), CutAll(blocks, target);
    PackMirrors(blocks, target);
    OpenIs(c.open);
    if c.open != [] {
      EmitMirrors(s, c);
    }
  }

  // ---- nothing is lost ----

  function Concat(groups: seq<seq<Block>>): seq<Block> {
    if groups == [] then [] else Concat(groups[..|groups| - 1]) + groups[|groups| - 1]
  }

  lemma {:induction false} CutKeepsBlocks(blocks: seq<Block>, target: nat)
    ensures Concat(CutAll(blocks, target).groups) + CutAll(blocks, target).open == Content(blocks)
  {
    if blocks != [] {
      var init, b := blocks[..|blocks| - 1], blocks[|blocks| - 1];
      var c := CutAll(init, target);
      CutKeepsBlocks(init, target);
      assert blocks == init + [b];
      FilterSplits((x: Block) => x.tag != H1, init, [b]);
      var whole, cut := c.open + [b], c.open;
      assert (c.groups + [whole])[..|c.groups|] == c.groups;
      assert (c.groups + [cut])[..|c.groups|] == c.groups;
      assert Concat(c.groups) + (c.open + [b]) == Concat(c.groups) + c.open + [b];
    }
  }

  lemma {:induction false} JoinSplits(sep: string, a: seq<string>, b: seq<string>)
    requires a != [] && b != []
    ensures Join(sep, a + b) == Join(sep, a) + sep + Join(sep, b)
  {
    if |a| == 1 {
      assert (a + b)[1..] == b;
    } else {
      assert (a + b)[1..] == a[1..] + b && (a + b)[0] == a[0];
      JoinSplits(sep, a[1..], b);
    }
  }

  /** The texts of the groups. */
  function Bodies(groups: seq<seq<Block>>): seq<string> {
    seq(|groups|, i requires 0 <= i < |groups| => BodyOf(groups[i]))
  }

  lemma {:induction false} JoinOfBodies(groups: seq<seq<Block>>)
    requires forall i :: 0 <= i < |groups| ==> groups[i] != []
    ensures Join("\n", Bodies(groups)) == BodyOf(Concat(groups))
    ensures groups != [] ==> Concat(groups) != []
  {
    if groups != [] {
      var init, last := groups[..|groups| - 1], groups[|groups| - 1];
      JoinOfBodies(init);
      assert Bodies(groups) == Bodies(init) + [BodyOf(last)];
      assert Texts(Concat(init) + last) == Texts(Concat(init)) + Texts(last);
      if init == [] {
        assert Concat(groups) == last;
      } else {
        JoinSplits("\n", Bodies(init), [BodyOf(last)]);
        JoinSplits("\n", Texts(Concat(init)), Texts(last));
      }
    }
  }

  function ChunkTexts(chunks: seq<Chunk>): seq<string> {
    seq(|chunks|, i requires 0 <= i < |chunks| => chunks[i].text)
  }

  lemma MergeKeepsText(chunks: seq<Chunk>)
    ensures Join("\n", ChunkTexts(MergeTail(chunks))) == Join("\n", ChunkTexts(chunks))
  {
    var n := |chunks|;
    if n >= 2 && |chunks[n - 1].text| < TINY {
      var head := ChunkTexts(chunks[..n - 2]);
      var two := [chunks[n - 2].text, chunks[n - 1].text];
      var one := [chunks[n - 2].text + "\n" + chunks[n - 1].text];
      assert ChunkTexts(chunks) == head + two;
      assert ChunkTexts(MergeTail(chunks)) == head + one;
      assert two[1..] == [chunks[n - 1].text];
      assert Join("\n", two) == one[0] == Join("\n", one);
      if head == [] {
        assert head + two == two && head + one == one;
      } else {
        JoinSplits("\n", head, two);
        JoinSplits("\n", head, one);
      }
    }
  }

  lemma {:induction false} GroupsKeepBlocks(blocks: seq<Block>, target: nat)
    ensures Concat(Groups(blocks, target)) == Content(blocks)
  {
    hide CutAll;
    CutKeepsBlocks(blocks, target);
    var c := CutAll(blocks, target);
    assert (c.groups + [c.open])[..|c.groups|] == c.groups;
  }

  /** Chunking is lossless: joined line by line, the chunks are the section's content, title headings aside;
      and the chunks are numbered from zero without a gap. */
  lemma ChunkingIsLossless(blocks: seq<Block>, target: nat)
    requires AllClean(blocks)
    ensures var chunks := Chunks(blocks, target);
      && Join("\n", ChunkTexts(chunks)) == BodyOf(Content(blocks))
      && forall i :: 0 <= i < |chunks| ==> chunks[i].number == i
  {
    hide Packed, Groups, Clean, BodyOf;
    var g := Groups(blocks, target);
    ChunksAreGroups(blocks, target);
    assert ChunkTexts(Packed(blocks, target)) == Bodies(g);
    JoinOfBodies(g);
    GroupsKeepBlocks(blocks, target);
    MergeKeepsText(Packed(blocks, target));
  }

  // ---- where the cuts are ----

  /** A second-level heading may only stand first. */
  ghost predicate H2First(group: seq<Block>) {
    forall i :: 0 < i < |group| ==> group[i].tag != H2
  }

  ghost predicate StartsH2(group: seq<Block>) {
    group != [] && group[0].tag == H2
  }

  /** Group i is followed by group i + 1, the last one by the open group. */
  function After(c: Cut, i: nat): seq<Block> {
    if i + 1 < |c.groups| then c.groups[i + 1] else c.open
  }

  ghost predicate Justified(c: Cut, i: nat, target: nat)
    requires i < |c.groups|
  {
    H2First(c.groups[i]) && (Length(c.groups[i]) >= target || StartsH2(After(c, i)))
  }

  ghost predicate WellCut(c: Cut, target: nat) {
    H2First(c.open) && forall i :: 0 <= i < |c.groups| ==> Justified(c, i, target)
  }

  lemma StepIsWell(c: Cut, b: Block, target: nat)
    requires WellCut(c, target)
    ensures WellCut(CutStep(c, b, target), target)
  {
    hide Length;
    var next := CutStep(c, b, target);
    forall i | 0 <= i < |next.groups| ensures Justified(next, i, target) {
      if i < |c.groups| {
        assert Justified(c, i, target);
        assert next.groups[i] == c.groups[i];
        assert StartsH2(After(c, i)) ==> StartsH2(After(next, i));
      }
    }
  }

  lemma NoCuts(target: nat)
    ensures WellCut(Cut([], []), target)
  {
  }

  lemma {:induction false} CutsAreWell(blocks: seq<Block>, target: nat)
    ensures WellCut(CutAll(blocks, target), target)
  {
    hide Length, CutStep, WellCut;
    if blocks == [] {
      NoCuts(target);
    } else {
      CutsAreWell(blocks[..|blocks| - 1], target);
      StepIsWell(CutAll(blocks[..|blocks| - 1], target), blocks[|blocks| - 1], target);
    }
  }

  lemma JustifiedMeans(c: Cut, i: nat, target: nat)
    requires i < |c.groups| && Justified(c, i, target)
    ensures H2First(c.groups[i]) && (Length(c.groups[i]) >= target || StartsH2(After(c, i)))
  {
  }

  /** Before the tail merge: a second-level heading only stands at the front of a chunk, and no chunk is cut short
      without reason: every one but the last has reached the target length or is followed by such a heading. */
  lemma CutsHaveReasons(blocks: seq<Block>, target: nat)
    ensures var g := Groups(blocks, target);
      && (forall i :: 0 <= i < |g| ==> H2First(g[i]))
      && (forall i :: 0 <= i < |g| - 1 ==> Length(g[i]) >= target || StartsH2(g[i + 1]))
  {
    hide Length, CutAll, H2First, StartsH2, Justified;
    CutsAreWell(blocks, target);
    var c, g := CutAll(blocks, target), Groups(blocks, target);
    forall i | 0 <= i < |g| ensures H2First(g[i]) && (i < |g| - 1 ==> Length(g[i]) >= target || StartsH2(g[i + 1])) {
      if i < |c.groups| {
        assert Justified(c, i, target);
        JustifiedMeans(c, i, target);
        assert g[i] == c.groups[i];
        assert i < |g| - 1 ==> After(c, i) == g[i + 1];
      }
    }
  }

  // ---- the rule, and where it is broken ----

  ghost predicate TailMerges(blocks: seq<Block>, target: nat) {
    var g := Groups(blocks, target);
    |g| >= 2 && |BodyOf(g[|g| - 1])| < 60
  }

  /** The groups behind the chunks as they are returned. */
  ghost function FinalGroups(blocks: seq<Block>, target: nat): seq<seq<Block>> {
    var g := Groups(blocks, target);
    if TailMerges(blocks, target) then g[..|g| - 2] + [g[|g| - 2] + g[|g| - 1]] else g
  }

  lemma BodyOfTwo(a: seq<Block>, b: seq<Block>)
    requires a != [] && b != []
    ensures BodyOf(a + b) == BodyOf(a) + "\n" + BodyOf(b)
  {
    assert Texts(a + b) == Texts(a) + Texts(b);
    JoinSplits("\n", Texts(a), Texts(b));
  }

  /** Chunk i, as returned, is the text of final group i. */
  lemma FinalChunksAreGroups(blocks: seq<Block>, target: nat)
    requires AllClean(blocks)
    ensures var g, chunks := FinalGroups(blocks, target), Chunks(blocks, target);
      |chunks| == |g| && forall i :: 0 <= i < |g| ==> g[i] != [] && chunks[i].number == i && chunks[i].text == BodyOf(g[i])
  {
    hide Packed, Groups, Clean, BodyOf;
    var g, chunks := Groups(blocks, target), Packed(blocks, target);
    ChunksAreGroups(blocks, target);
    if TailMerges(blocks, target) {
      BodyOfTwo(g[|g| - 2], g[|g| - 1]);
    }
  }

  lemma MergedH2(a: seq<Block>, b: seq<Block>)
    requires a != [] && b != [] && H2First(a) && H2First(b)
    ensures H2First(a + b) <==> !StartsH2(b)
  {
    assert (a + b)[|a|] == b[0];
  }

  lemma {:induction false} CutNonempty(blocks: seq<Block>, target: nat)
    ensures forall i :: 0 <= i < |CutAll(blocks, target).groups| ==> CutAll(blocks, target).groups[i] != []
  {
    hide Length;
    if blocks != [] {
      CutNonempty(blocks[..|blocks| - 1], target);
    }
  }

  lemma GroupsNonempty(blocks: seq<Block>, target: nat)
    ensures forall i :: 0 <= i < |Groups(blocks, target)| ==> Groups(blocks, target)[i] != []
  {
    hide CutAll, Length;
    CutNonempty(blocks, target);
  }

  /** A returned chunk has a second-level heading inside it if and only if the tail merge swallowed a chunk that begins
      with one. */
  lemma H2InsideIffMerged(blocks: seq<Block>, target: nat)
    ensures var g := Groups(blocks, target);
      (exists i :: 0 <= i < |FinalGroups(blocks, target)| && !H2First(FinalGroups(blocks, target)[i]))
      <==> TailMerges(blocks, target) && StartsH2(g[|g| - 1])
  {
    hide Groups, BodyOf, Length;
    CutsHaveReasons(blocks, target);
    GroupsNonempty(blocks, target);
    var g, f := Groups(blocks, target), FinalGroups(blocks, target);
    if TailMerges(blocks, target) {
      MergedH2(g[|g| - 2], g[|g| - 1]);
      assert f[|g| - 2] == g[|g| - 2] + g[|g| - 1];
      assert forall i :: 0 <= i < |g| - 2 ==> f[i] == g[i];
    }
  }

  // ---- title headings ----

  /** The number of blocks in the first k groups. */
  ghost function Ahead(groups: seq<seq<Block>>, k: nat): nat
    requires k <= |groups|
  {
    |Concat(groups[..k])|
  }

  /** A place in the content, given as a number of blocks, lies strictly inside a group. */
  ghost predicate Inside(groups: seq<seq<Block>>, n: nat) {
    exists k :: 0 <= k < |groups| && Ahead(groups, k) < n < Ahead(groups, k + 1)
  }

  lemma AheadStep(groups: seq<seq<Block>>, k: nat)
    requires k < |groups|
    ensures Ahead(groups, k + 1) == Ahead(groups, k) + |groups[k]|
  {
    assert groups[..k + 1][..k] == groups[..k];
  }

  lemma {:induction false} AheadRises(groups: seq<seq<Block>>, j: nat, k: nat)
    requires j <= k <= |groups|
    ensures Ahead(groups, j) <= Ahead(groups, k)
  {
    if j < k {
      AheadRises(groups, j, k - 1);
      AheadStep(groups, k - 1);
    }
  }

  /** Whether n lies inside is decided by the group that n reaches into. */
  lemma InsideAt(groups: seq<seq<Block>>, m: nat, n: nat)
    requires m < |groups| && Ahead(groups, m) < n <= Ahead(groups, m + 1)
    ensures Inside(groups, n) <==> n < Ahead(groups, m + 1)
  {
    forall k | 0 <= k < |groups| && Ahead(groups, k) < n < Ahead(groups, k + 1) ensures k == m {
      if k < m {
        AheadRises(groups, k + 1, m);
      }
      if k > m {
        AheadRises(groups, m + 1, k);
      }
    }
  }

  lemma BoundaryIsOutside(groups: seq<seq<Block>>, m: nat)
    requires m <= |groups|
    ensures !Inside(groups, Ahead(groups, m))
  {
    forall k | 0 <= k < |groups| ensures !(Ahead(groups, k) < Ahead(groups, m) < Ahead(groups, k + 1)) {
      if k < m {
        AheadRises(groups, k + 1, m);
      } else {
        AheadRises(groups, m, k);
      }
    }
  }

  /** After the first p blocks the finished groups are final. */
  lemma {:induction false} GroupsGrow(blocks: seq<Block>, target: nat, p: nat)
    requires p <= |blocks|
    ensures CutAll(blocks[..p], target).groups <= Groups(blocks, target)
    decreases |blocks| - p
  {
    hide Length;
    if p == |blocks| {
      assert blocks[..p] == blocks;
    } else {
      GroupsGrow(blocks, target, p + 1);
      assert blocks[..p + 1][..p] == blocks[..p];
    }
  }

  /** A chunk that is open closes before the rest only if nothing follows or a second-level heading does. */
  predicate ClosesBefore(rest: seq<Block>) {
    Content(rest) == [] || Content(rest)[0].tag == H2
  }

  lemma LastOpen(blocks: seq<Block>, target: nat)
    requires CutAll(blocks, target).open != []
    ensures Groups(blocks, target) == CutAll(blocks, target).groups + [CutAll(blocks, target).open] && ClosesBefore([])
  {
  }

  lemma NextCut(blocks: seq<Block>, target: nat, p: nat)
    requires p < |blocks|
    ensures CutAll(blocks[..p + 1], target) == CutStep(CutAll(blocks[..p], target), blocks[p], target)
  {
    assert blocks[..p + 1][..p] == blocks[..p];
  }

  lemma ContentOfRest(blocks: seq<Block>, p: nat)
    requires p < |blocks|
    ensures Content(blocks[p..]) == (if blocks[p].tag == H1 then [] else [blocks[p]]) + Content(blocks[p + 1..])
  {
    assert blocks[p..][0] == blocks[p] && blocks[p..][1..] == blocks[p + 1..];
  }

  lemma {:induction false} OpenContinues(blocks: seq<Block>, target: nat, p: nat)
    requires p <= |blocks| && CutAll(blocks[..p], target).open != []
    ensures var c, g := CutAll(blocks[..p], target), Groups(blocks, target);
      && |c.groups| < |g| && c.groups == g[..|c.groups|] && c.open <= g[|c.groups|]
      && (g[|c.groups|] == c.open <==> ClosesBefore(blocks[p..]))
    decreases |blocks| - p
  {
    hide Length, Groups, CutAll;
    var c := CutAll(blocks[..p], target);
    if p == |blocks| {
      assert blocks[..p] == blocks && blocks[p..] == [];
      LastOpen(blocks, target);
    } else {
      var b := blocks[p];
      NextCut(blocks, target, p);
      ContentOfRest(blocks, p);
      GroupsGrow(blocks, target, p + 1);
      if b.tag == H1 {
        OpenContinues(blocks, target, p + 1);
      } else if b.tag == H2 {
        OpenContinues(blocks, target, p + 1);
      } else if CutAll(blocks[..p + 1], target).open != [] {
        OpenContinues(blocks, target, p + 1);
      }
    }
  }

  lemma AheadIs(groups: seq<seq<Block>>, some: seq<seq<Block>>)
    requires some <= groups
    ensures Ahead(groups, |some|) == |Concat(some)|
  {
    assert groups[..|some|] == some;
  }

  /** Before the tail merge, a chunk runs across a title heading if and only if one is open when the title comes, and
      the next block that is not a title exists and is no second-level heading. */
  lemma TitleInsideIffOpen(blocks: seq<Block>, target: nat, p: nat)
    requires p < |blocks| && blocks[p].tag == H1
    ensures Inside(Groups(blocks, target), |Content(blocks[..p])|)
            <==> CutAll(blocks[..p], target).open != [] && !ClosesBefore(blocks[p..])
  {
    hide Groups, CutAll, ClosesBefore, Content, Inside, Ahead;
    var c, g := CutAll(blocks[..p], target), Groups(blocks, target);
    CutKeepsBlocks(blocks[..p], target);
    GroupsGrow(blocks, target, p);
    AheadIs(g, c.groups);
    if c.open == [] {
      BoundaryIsOutside(g, |c.groups|);
    } else {
      OpenContinues(blocks, target, p);
      AheadStep(g, |c.groups|);
      InsideAt(g, |c.groups|, |Content(blocks[..p])|);
    }
  }

  lemma SameAhead(f: seq<seq<Block>>, g: seq<seq<Block>>, k: nat)
    requires k <= |f| && k <= |g| && f[..k] == g[..k]
    ensures Ahead(f, k) == Ahead(g, k)
  {
  }

  /** The tail merge adds one place: the boundary in front of the chunk it swallows. */
  lemma MergeInside(blocks: seq<Block>, target: nat, n: nat)
    ensures var g := Groups(blocks, target);
      Inside(FinalGroups(blocks, target), n)
      <==> Inside(g, n) || (TailMerges(blocks, target) && n == Ahead(g, |g| - 1))
  {
    hide Groups, BodyOf, Ahead;
    GroupsNonempty(blocks, target);
    var g, f := Groups(blocks, target), FinalGroups(blocks, target);
    if TailMerges(blocks, target) {
      var m := |g| - 2;
      assert f[..m] == g[..m];
      forall k | 0 <= k <= m ensures Ahead(f, k) == Ahead(g, k) {
        SameAhead(f, g, k);
      }
      AheadStep(f, m);
      AheadStep(g, m);
      AheadStep(g, m + 1);
      assert Ahead(f, m + 1) == Ahead(g, m + 2);
      if k :| 0 <= k < |f| && Ahead(f, k) < n < Ahead(f, k + 1) {
        if k == m && n != Ahead(g, m + 1) {
          assert Ahead(g, m) < n < Ahead(g, m + 1) || Ahead(g, m + 1) < n < Ahead(g, m + 1 + 1);
        }
      }
      if k :| 0 <= k < |g| && Ahead(g, k) < n < Ahead(g, k + 1) {
        assert k >= m ==> Ahead(f, m) < n < Ahead(f, m + 1);
      }
      assert n == Ahead(g, m + 1) ==> Ahead(f, m) < n < Ahead(f, m + 1);
    }
  }

  lemma JoinedTwo()
    ensures Join("\n", ["a", "b"]) == "a\nb" && Strip("a\nb") == "a\nb"
  {
    assert ["a", "b"][1..] == ["b"];
    StripClean("a\nb");
  }

  /** The rule that no chunk straddles a first or second-level heading fails: here across a title... */
  lemma TitleStraddled()
    ensures var blocks := [Block(Body, "a"), Block(H1, "T"), Block(Body, "b")];
      ChunkTexts(Chunks(blocks, 100)) == ["a\nb"]
  {
    var blocks := [Block(Body, "a"), Block(H1, "T"), Block(Body, "b")];
    assert blocks[..2][..1][..0] == [] && blocks[..2][..1] == blocks[..1] && blocks[..1][..0] == [];
    assert Pack(blocks[..1], 100) == State([], ["a"], 2, [], []);
    assert Pack(blocks[..2], 100) == State([], ["a"], 2, [], []);
    assert Pack(blocks, 100).buf == ["a", "b"] && Pack(blocks, 100).chunks == [];
    JoinedTwo();
  }

  lemma TwoMerge(chunks: seq<Chunk>)
    requires |chunks| == 2 && |chunks[1].text| < TINY
    ensures ChunkTexts(MergeTail(chunks)) == [chunks[0].text + "\n" + chunks[1].text]
  {
  }

  lemma TakeNone()
    ensures Take<string>([], 0) == []
  {
  }

  lemma OneLetter(t: string)
    requires |t| == 1 && !IsSpace(t[0])
    ensures Strip(t) == t
  {
  }

  lemma EmitLetter(s: State, t: string)
    requires s.buf == [t] && |t| == 1 && !IsSpace(t[0])
    ensures Emit(s).chunks == s.chunks + [Chunk(|s.chunks|, s.bufTrail, t)]
    ensures Emit(s).buf == [] && Emit(s).bufLen == 0 && Emit(s).trail == s.trail
  {
    OneLetter(t);
  }

  /** ... and here, by the tail merge, across a second-level heading. */
  lemma SectionStraddled()
    ensures var blocks := [Block(Body, "a"), Block(H2, "b")];
      ChunkTexts(Chunks(blocks, 100)) == ["a\nb"]
  {
    hide Emit, Strip, Take, MergeTail, ChunkTexts;
    var blocks := [Block(Body, "a"), Block(H2, "b")];
    assert blocks[..1][..0] == [];
    assert Pack(blocks[..1], 100) == State([], ["a"], 2, [], []);
    EmitLetter(State([], ["a"], 2, [], ["b"]), "a");
    assert Take([], 0) + ["b"] == ["b"] by { TakeNone(); }
    var s := Pack(blocks, 100);
    assert s.buf == ["b"] && |s.chunks| == 1 && s.chunks[0].text == "a";
    EmitLetter(s, "b");
    assert Packed(blocks, 100) == Emit(s).chunks;
    TwoMerge(Packed(blocks, 100));
    assert "a" + "\n" + "b" == "a\nb";
  }
}
