/** The sidebar parser: a stack machine over nested lists of links (core/eval/fortios_corpus.py). */
module TocParser {
  import opened Basics

  datatype Target = Target(sid: string, slug: string)

  /** What the HTML tokeniser delivers: lists opening (a table of contents or some other list) and closing,
      and complete links of the table of contents. A link names its section unless its address is not one. */
  datatype Event = ListOpen(toc: bool) | Link(target: Option<Target>, title: string) | ListClose

  datatype Entry = Entry(title: string, slug: string, ancestors: seq<string>)

  datatype Level = Level(depth: int, title: string)

  datatype State = State(depth: int, stack: seq<Level>, result: map<string, Entry>)

  const START := State(0, [], map[])

  /** The stack entries shallower than a depth. */
  function Shallower(stack: seq<Level>, depth: int): seq<Level> {
    Filter((l: Level) => l.depth < depth, stack)
  }

  function Titles(stack: seq<Level>): seq<string> {
    seq(|stack|, i requires 0 <= i < |stack| => stack[i].title)
  }

  /** The longest chain of ancestors seen for a section is kept; the first one among equals. */
  function Keep(result: map<string, Entry>, sid: string, e: Entry): map<string, Entry> {
    if sid !in result || |e.ancestors| > |result[sid].ancestors| then result[sid := e] else result
  }

  function Step(s: State, e: Event): State {
    match e
    case ListOpen(toc) => if toc then s.(depth := s.depth + 1) else s
    case Link(target, title) =>
      if target.None? || title == "" then s
      else
        var above := Shallower(s.stack, s.depth);
        State(s.depth, above + [Level(s.depth, title)],
              Keep(s.result, target.value.sid, Entry(title, target.value.slug, Titles(above))))
    case ListClose =>
      if s.depth > 0 then s.(stack := Shallower(s.stack, s.depth), depth := s.depth - 1) else s
  }

  function Run(s: State, events: seq<Event>): State
    decreases |events|
  {
    if events == [] then s else Run(Step(s, events[0]), events[1..])
  }

  class Parser {
    var depth: int
    var stack: seq<Level>
    var result: map<string, Entry>

    constructor ()
      ensures View() == START
    {
      depth, stack, result := 0, [], map[];
    }

    function View(): State
      reads this
    {
      State(depth, stack, result)
    }

    method HandleListOpen(toc: bool)
      modifies this
      ensures View() == Step(old(View()), ListOpen(toc))
    {
      if toc {
        depth := depth + 1;
      }
    }

    method HandleLink(target: Option<Target>, title: string)
      modifies this
      ensures View() == Step(old(View()), Link(target, title))
    {
      if target.Some? && title != "" {
        var ancestors := Titles(Shallower(stack, depth));
        if target.value.sid !in result || |ancestors| > |result[target.value.sid].ancestors| {
          result := result[target.value.sid := Entry(title, target.value.slug, ancestors)];
        }
        stack := Shallower(stack, depth);
        stack := stack + [Level(depth, title)];
      }
    }

    method HandleListClose()
      modifies this
      ensures View() == Step(old(View()), ListClose)
    {
      if depth > 0 {
        stack := Shallower(stack, depth);
        depth := depth - 1;
      }
    }

    method Feed(events: seq<Event>)
      modifies this
      ensures View() == Run(old(View()), events)
    {
      ghost var before := View();
      assert events[0..] == events;
      for i := 0 to |events|
        invariant Run(View(), events[i..]) == Run(before, events)
      {
        assert events[i..][0] == events[i] && events[i..][1..] == events[i + 1..];
        match events[i]
        case ListOpen(toc) => HandleListOpen(toc);
        case Link(target, title) => HandleLink(target, title);
        case ListClose => HandleListClose();
      }
    }
  }

  // ---- rendering a hierarchy ----

  datatype Node = Node(sid: string, slug: string, title: string, kids: seq<Node>)

  function RenderItems(forest: seq<Node>): seq<Event>
    decreases forest, 0
  {
    if forest == [] then []
    else
      var n := forest[0];
      [Link(Some(Target(n.sid, n.slug)), n.title)] + Render(n.kids) + RenderItems(forest[1..])
  }

  /** A nonempty forest is a list of links, each followed by the list of its children. */
  function Render(forest: seq<Node>): seq<Event>
    decreases forest, 1
  {
    if forest == [] then [] else [ListOpen(true)] + RenderItems(forest) + [ListClose]
  }

  ghost predicate Titled(forest: seq<Node>) {
    forest != [] ==> forest[0].title != "" && Titled(forest[0].kids) && Titled(forest[1..])
  }

  datatype Row = Row(sid: string, entry: Entry)

  /** The sections of a forest in document order, each with the titles above it. */
  function Listing(forest: seq<Node>, path: seq<string>): seq<Row> {
    if forest == [] then []
    else
      var n := forest[0];
      [Row(n.sid, Entry(n.title, n.slug, path))] + Listing(n.kids, path + [n.title]) + Listing(forest[1..], path)
  }

  function Record(result: map<string, Entry>, rows: seq<Row>): map<string, Entry> {
    if rows == [] then result
    else
      var last := rows[|rows| - 1];
      Keep(Record(result, rows[..|rows| - 1]), last.sid, last.entry)
  }

  // ---- parsing inverts rendering ----

  lemma {:induction false} RunSplits(s: State, a: seq<Event>, b: seq<Event>)
    ensures Run(s, a + b) == Run(Run(s, a), b)
    decreases |a|
  {
    if a == [] {
      assert a + b == b;
    } else {
      assert (a + b)[0] == a[0] && (a + b)[1..] == a[1..] + b;
      RunSplits(Step(s, a[0]), a[1..], b);
    }
  }

  lemma {:induction false} RecordSplits(result: map<string, Entry>, a: seq<Row>, b: seq<Row>)
    ensures Record(result, a + b) == Record(Record(result, a), b)
  {
    if b == [] {
      assert a + b == a;
    } else {
      RecordSplits(result, a, b[..|b| - 1]);
      assert (a + b)[..|a + b| - 1] == a + b[..|b| - 1];
    }
  }

  ghost predicate AllBelow(stack: seq<Level>, depth: int) {
    forall i :: 0 <= i < |stack| ==> stack[i].depth < depth
  }

  lemma ShallowerBelow(stack: seq<Level>, depth: int)
    ensures AllBelow(Shallower(stack, depth), depth)
    ensures AllBelow(stack, depth) ==> Shallower(stack, depth) == stack
  {
    var p := (l: Level) => l.depth < depth;
    FilterMembers(p, stack);
    forall i | 0 <= i < |Shallower(stack, depth)| ensures Shallower(stack, depth)[i].depth < depth {
      assert Shallower(stack, depth)[i] in Shallower(stack, depth);
    }
    if AllBelow(stack, depth) {
      FilterAll(p, stack);
    }
  }

  lemma ShallowerFacts(stack: seq<Level>, depth: int)
    ensures AllBelow(Shallower(stack, depth), depth)
    ensures AllBelow(stack, depth) ==> Shallower(stack, depth) == stack
    ensures Shallower(Shallower(stack, depth), depth) == Shallower(stack, depth)
  {
    hide Shallower;
    ShallowerBelow(stack, depth);
    ShallowerBelow(Shallower(stack, depth), depth);
  }

  lemma ShallowerSplit(stack: seq<Level>, last: Level, depth: int)
    ensures Shallower(stack + [last], depth) == Shallower(stack, depth) + if last.depth < depth then [last] else []
  {
    FilterSplits((l: Level) => l.depth < depth, stack, [last]);
  }

  lemma OneEvent(s: State, e: Event)
    ensures Run(s, [e]) == Step(s, e)
  {
    assert [e][1..] == [];
  }

  lemma OneRow(result: map<string, Entry>, row: Row)
    ensures Record(result, [row]) == Keep(result, row.sid, row.entry)
  {
    assert [row][..0] == [];
  }

  lemma ParseLink(s: State, n: Node, path: seq<string>)
    requires n.title != "" && s.depth >= 1 && AllBelow(s.stack, s.depth + 1)
    requires Titles(Shallower(s.stack, s.depth)) == path
    ensures var linked := Step(s, Link(Some(Target(n.sid, n.slug)), n.title));
      && linked.depth == s.depth && AllBelow(linked.stack, s.depth + 1)
      && Titles(linked.stack) == path + [n.title]
      && Shallower(linked.stack, s.depth) == Shallower(s.stack, s.depth)
      && linked.result == Keep(s.result, n.sid, Entry(n.title, n.slug, path))
  {
    hide Shallower, Keep;
    ShallowerFacts(s.stack, s.depth);
    ShallowerSplit(Shallower(s.stack, s.depth), Level(s.depth, n.title), s.depth);
  }

  /** A rendered forest is parsed completely and leaves depth and stack as they were. */
  lemma {:induction false} ParseForest(forest: seq<Node>, s: State, path: seq<string>)
    requires Titled(forest) && s.depth >= 0 && AllBelow(s.stack, s.depth + 1) && Titles(s.stack) == path
    ensures Run(s, Render(forest)) == State(s.depth, s.stack, Record(s.result, Listing(forest, path)))
    decreases forest, 1
  {
    hide Shallower, Keep;
    if forest != [] {
      var inner := Step(s, ListOpen(true));
      ShallowerFacts(s.stack, s.depth + 1);
      ParseItems(forest, inner, path);
      RunSplits(s, [ListOpen(true)] + RenderItems(forest), [ListClose]);
      RunSplits(s, [ListOpen(true)], RenderItems(forest));
      OneEvent(s, ListOpen(true));
      OneEvent(Run(inner, RenderItems(forest)), ListClose);
    }
  }

  /** The rows of a list of items reach the result, under the path the stack spells out; what lies above
      the items' level is left on the stack. */
  lemma {:induction false} ParseItems(forest: seq<Node>, s: State, path: seq<string>)
    requires Titled(forest) && s.depth >= 1 && AllBelow(s.stack, s.depth + 1)
    requires Titles(Shallower(s.stack, s.depth)) == path
    ensures var r := Run(s, RenderItems(forest));
      && r.depth == s.depth && AllBelow(r.stack, r.depth + 1)
      && Shallower(r.stack, r.depth) == Shallower(s.stack, s.depth)
      && r.result == Record(s.result, Listing(forest, path))
    decreases forest, 0
  {
    hide Shallower, Keep;
    if forest != [] {
      var n := forest[0];
      var link := Link(Some(Target(n.sid, n.slug)), n.title);
      var row := Row(n.sid, Entry(n.title, n.slug, path));
      var linked := Step(s, link);
      ParseLink(s, n, path);
      ParseForest(n.kids, linked, path + [n.title]);
      var below := Run(linked, Render(n.kids));
      ParseItems(forest[1..], below, path);
      RunSplits(s, [link] + Render(n.kids), RenderItems(forest[1..]));
      RunSplits(s, [link], Render(n.kids));
      OneEvent(s, link);
      RecordSplits(s.result, [row] + Listing(n.kids, path + [n.title]), Listing(forest[1..], path));
      RecordSplits(s.result, [row], Listing(n.kids, path + [n.title]));
      OneRow(s.result, row);
    }
  }

  /** For every forest the parser returns exactly its sections, each with its path of ancestor titles,
      and ends with nothing open. Over two renderings of a page both listings are merged. */
  lemma ParsingInvertsRendering(first: seq<Node>, second: seq<Node>)
    requires Titled(first) && Titled(second)
    ensures Run(START, Render(first)) == State(0, [], Record(map[], Listing(first, [])))
    ensures Run(START, Render(first) + Render(second))
         == State(0, [], Record(map[], Listing(first, []) + Listing(second, [])))
  {
    ParseForest(first, START, []);
    RunSplits(START, Render(first), Render(second));
    ParseForest(second, Run(START, Render(first)), []);
    RecordSplits(map[], Listing(first, []), Listing(second, []));
  }

  /** Row k is the one kept for its section: no row has a longer chain, no earlier one a chain as long. */
  ghost predicate IsBest(rows: seq<Row>, k: nat) {
    && k < |rows|
    && forall j :: 0 <= j < |rows| && rows[j].sid == rows[k].sid ==>
         |rows[j].entry.ancestors| <= |rows[k].entry.ancestors|
         && (j < k ==> |rows[j].entry.ancestors| < |rows[k].entry.ancestors|)
  }

  /** The merged result keeps, for every section that is listed and no other, the longest chain listed for it. */
  lemma {:induction false} RecordKeepsLongest(rows: seq<Row>, sid: string) returns (k: nat)
    ensures sid in Record(map[], rows) <==> exists j :: 0 <= j < |rows| && rows[j].sid == sid
    ensures sid in Record(map[], rows) ==>
      k < |rows| && rows[k].sid == sid && IsBest(rows, k) && Record(map[], rows)[sid] == rows[k].entry
  {
    k := 0;
    if rows != [] {
      var init, last := rows[..|rows| - 1], rows[|rows| - 1];
      var before := RecordKeepsLongest(init, sid);
      k := before;
      if sid in Record(map[], init) {
        assert rows[before].sid == sid;
      }
      if last.sid == sid && (sid !in Record(map[], init) || |last.entry.ancestors| > |Record(map[], init)[sid].ancestors|) {
        k := |rows| - 1;
        assert rows[k] == last;
      }
      forall j | 0 <= j < |init| ensures rows[j] == init[j] {}
    }
  }

  ghost predicate UniqueSections(rows: seq<Row>) {
    forall i, j :: 0 <= i < j < |rows| ==> rows[i].sid != rows[j].sid
  }

  /** With unique ids, parsing one rendering recovers every row of the listing unchanged. */
  lemma EverySectionRecovered(forest: seq<Node>, k: nat)
    requires Titled(forest) && UniqueSections(Listing(forest, [])) && k < |Listing(forest, [])|
    ensures var row := Listing(forest, [])[k]; var result := Run(START, Render(forest)).result;
      row.sid in result && result[row.sid] == row.entry
  {
    var rows := Listing(forest, []);
    ParsingInvertsRendering(forest, []);
    var j := RecordKeepsLongest(rows, rows[k].sid);
  }

  // ---- what the sidebar holds besides ----

  /** Lists of another kind opening, and links without a section or a title. */
  predicate IsNoise(e: Event) {
    match e
    case ListOpen(toc) => !toc
    case Link(target, title) => target.None? || title == ""
    case ListClose => false
  }

  /** Noise makes no difference, wherever it comes. */
  lemma {:induction false} NoiseIsIgnored(s: State, events: seq<Event>)
    ensures Run(s, events) == Run(s, Filter((e: Event) => !IsNoise(e), events))
    decreases |events|
  {
    hide Shallower, Keep;
    if events != [] {
      NoiseIsIgnored(Step(s, events[0]), events[1..]);
    }
  }

  lemma {:induction false} OnlyNoise(s: State, events: seq<Event>)
    requires forall i :: 0 <= i < |events| ==> IsNoise(events[i])
    ensures Run(s, events) == s
    decreases |events|
  {
    hide Shallower, Keep;
    if events != [] {
      OnlyNoise(s, events[1..]);
    }
  }

  /** A closing tag does not say which list it closes: a list of another kind is harmless outside the table of contents,
      and inside it ends a level of the table. */
  lemma OtherListCloses(s: State, inside: seq<Event>)
    requires forall i :: 0 <= i < |inside| ==> IsNoise(inside[i])
    ensures Run(s, [ListOpen(false)] + inside + [ListClose])
         == if s.depth > 0 then State(s.depth - 1, Shallower(s.stack, s.depth), s.result) else s
    ensures Run(s, [ListOpen(false)] + inside + [ListClose]) == s <==> s.depth <= 0
  {
    hide Shallower;
    RunSplits(s, [ListOpen(false)] + inside, [ListClose]);
    OnlyNoise(s, [ListOpen(false)] + inside);
    OneEvent(s, ListClose);
  }
}
