/** Text as the context compiler sees it: the mixed-language token estimate and the
    splitter that cuts a line to a token budget (core/context/compiler.py). */
module TokenText {
  datatype CharClass = Space | Word | Cjk | Other

  /** White space as both the regular expression \s and str.strip understand it. */
  predicate IsSpace(c: char) {
    || '\t' <= c <= '\r' || '\U{1c}' <= c <= ' ' || c == '\U{85}' || c == '\U{a0}'
    || c == '\U{1680}' || '\U{2000}' <= c <= '\U{200a}' || '\U{2028}' <= c <= '\U{2029}'
    || c == '\U{202f}' || c == '\U{205f}' || c == '\U{3000}'
  }

  predicate IsAscii(c: char) {
    c < '\U{80}'
  }

  /** The three character classes of the token pattern, and the separators between them. */
  function ClassOf(c: char): CharClass {
    if IsSpace(c) then Space
    else if 'A' <= c <= 'Z' || 'a' <= c <= 'z' || '0' <= c <= '9' || c == '_' then Word
    else if '\U{3400}' <= c <= '\U{4dbf}' || '\U{4e00}' <= c <= '\U{9fff}' || '\U{f900}' <= c <= '\U{faff}' then Cjk
    else Other
  }

  // ---- the estimate ----

  /** First position from i on whose class is not k. */
  function RunEnd(t: string, i: nat, k: CharClass): (e: nat)
    requires i <= |t|
    ensures i <= e <= |t|
    ensures forall j :: i <= j < e ==> ClassOf(t[j]) == k
    ensures e < |t| ==> ClassOf(t[e]) != k
    decreases |t| - i
  {
    if i < |t| && ClassOf(t[i]) == k then RunEnd(t, i + 1, k) else i
  }

  /** The pattern's matches from position i on, leftmost first and each as long as possible. */
  function Pieces(t: string, i: nat): seq<string>
    requires i <= |t|
    decreases |t| - i
  {
    if i == |t| then [] else
      var k := ClassOf(t[i]);
      if k == Space then Pieces(t, i + 1)
      else if k == Cjk then [t[i..i + 1]] + Pieces(t, i + 1)
      else var e := RunEnd(t, i + 1, k); [t[i..e]] + Pieces(t, e)
  }

  function DefaultTokenCounter(t: string): nat {
    |Pieces(t, 0)|
  }

  /** Position i begins a piece: a character of its own, or the first of its run. */
  predicate StartsPiece(t: string, i: nat)
    requires i < |t|
  {
    var k := ClassOf(t[i]);
    k == Cjk || (k != Space && (i == 0 || ClassOf(t[i - 1]) != k))
  }

  /** How many of the first n characters begin a piece. */
  ghost function Starts(t: string, n: nat): nat
    requires n <= |t|
  {
    if n == 0 then 0 else Starts(t, n - 1) + if StartsPiece(t, n - 1) then 1 else 0
  }

  lemma {:induction false} StartsInRun(t: string, i: nat, e: nat)
    requires 0 < i <= e <= |t| && ClassOf(t[i - 1]) !in {Space, Cjk}
    requires forall j :: i <= j < e ==> ClassOf(t[j]) == ClassOf(t[i - 1])
    ensures Starts(t, e) == Starts(t, i)
  {
    if i < e {
      StartsInRun(t, i, e - 1);
      assert ClassOf(t[e - 2]) == ClassOf(t[e - 1]);
    }
  }

  lemma OnePiece(t: string, i: nat)
    requires i < |t| && ClassOf(t[i]) in {Space, Cjk}
    ensures |Pieces(t, i)| - |Pieces(t, i + 1)| == Starts(t, i + 1) - Starts(t, i)
  {
    hide IsSpace, ClassOf;
  }

  lemma {:induction false} PiecesAreStarts(t: string, i: nat)
    requires i <= |t|
    requires 0 < i < |t| && ClassOf(t[i]) == ClassOf(t[i - 1]) ==> ClassOf(t[i]) in {Space, Cjk}
    ensures |Pieces(t, i)| == Starts(t, |t|) - Starts(t, i)
    decreases |t| - i
  {
    hide IsSpace, ClassOf;
    if i < |t| {
      var k := ClassOf(t[i]);
      if k == Space || k == Cjk {
        PiecesAreStarts(t, i + 1);
        OnePiece(t, i);
      } else {
        var e := RunEnd(t, i + 1, k);
        PiecesAreStarts(t, e);
        StartsInRun(t, i + 1, e);
        assert StartsPiece(t, i);
      }
    }
  }

  lemma {:induction false} StartsOfPrefix(t: string, k: nat, n: nat)
    requires n <= k <= |t|
    ensures Starts(t[..k], n) == Starts(t, n)
  {
    if n > 0 {
      StartsOfPrefix(t, k, n - 1);
    }
  }

  /** The estimate of a prefix never exceeds the whole, and one more character adds at most one token. */
  lemma {:induction false} CountOfPrefix(t: string, k: nat)
    requires k <= |t|
    ensures DefaultTokenCounter(t[..k]) == Starts(t, k)
    ensures DefaultTokenCounter(t[..k]) <= DefaultTokenCounter(t) <= DefaultTokenCounter(t[..k]) + (|t| - k)
    decreases |t| - k
  {
    PiecesAreStarts(t[..k], 0);
    StartsOfPrefix(t, k, k);
    PiecesAreStarts(t, 0);
    if k < |t| {
      CountOfPrefix(t, k + 1);
    } else {
      assert t[..k] == t;
    }
  }

  /** a and b touch without merging a run across the seam. */
  ghost predicate Seam(a: string, b: string) {
    a != [] && b != [] && ClassOf(a[|a| - 1]) == ClassOf(b[0]) ==> ClassOf(b[0]) in {Space, Cjk}
  }

  lemma {:induction false} StartsAcrossSeam(a: string, b: string, n: nat)
    requires Seam(a, b) && n <= |b|
    ensures Starts(a + b, |a| + n) == Starts(a, |a|) + Starts(b, n)
  {
    if n == 0 {
      assert (a + b)[..|a|] == a;
      StartsOfPrefix(a + b, |a|, |a|);
    } else {
      StartsAcrossSeam(a, b, n - 1);
      assert (a + b)[|a| + n - 1] == b[n - 1];
      assert n > 1 ==> (a + b)[|a| + n - 2] == b[n - 2];
    }
  }

  /** Across such a seam the estimate is additive. */
  lemma CountAcrossSeam(a: string, b: string)
    requires Seam(a, b)
    ensures DefaultTokenCounter(a + b) == DefaultTokenCounter(a) + DefaultTokenCounter(b)
  {
    var whole := a + b;
    PiecesAreStarts(a, 0);
    PiecesAreStarts(b, 0);
    PiecesAreStarts(whole, 0);
    StartsAcrossSeam(a, b, |b|);
    assert |whole| == |a| + |b|;
  }

  /** A text of n parts joined by one separator, as str.join builds it. */
  function Join(sep: string, parts: seq<string>): string {
    if parts == [] then ""
    else if |parts| == 1 then parts[0]
    else parts[0] + sep + Join(sep, parts[1..])
  }

  function SumOf(counter: string -> nat, parts: seq<string>): nat {
    if parts == [] then 0 else counter(parts[0]) + SumOf(counter, parts[1..])
  }

  /** Joining lines with a blank or a newline costs nothing: the estimate is the sum of the lines'. */
  lemma {:induction false} CountOfJoin(sep: char, parts: seq<string>)
    requires IsSpace(sep)
    ensures DefaultTokenCounter(Join([sep], parts)) == SumOf(DefaultTokenCounter, parts)
  {
    if |parts| == 1 {
      assert SumOf(DefaultTokenCounter, parts[1..]) == 0;
    } else if |parts| > 1 {
      var rest := Join([sep], parts[1..]);
      CountOfJoin(sep, parts[1..]);
      CountAcrossSeam(parts[0], [sep] + rest);
      CountAcrossSeam([sep], rest);
      assert Pieces([sep], 0) == [];
      assert parts[0] + [sep] + rest == parts[0] + ([sep] + rest);
    }
  }

  // ---- stripping and searching ----

  function RStrip(t: string): (r: string)
    ensures |r| <= |t| && r == t[..|r|]
    ensures forall j :: |r| <= j < |t| ==> IsSpace(t[j])
    ensures r != "" ==> !IsSpace(r[|r| - 1])
  {
    if t != "" && IsSpace(t[|t| - 1]) then
      var r := RStrip(t[..|t| - 1]);
      assert forall j :: |r| <= j < |t| - 1 ==> t[..|t| - 1][j] == t[j];
      r
    else t
  }

  function LStrip(t: string): (r: string)
    ensures |r| <= |t| && r == t[|t| - |r|..]
    ensures forall j :: 0 <= j < |t| - |r| ==> IsSpace(t[j])
    ensures r != "" ==> !IsSpace(r[0])
  {
    if t != "" && IsSpace(t[0]) then LStrip(t[1..]) else t
  }

  /** Position of the last blank before n, or -1. */
  function RFindBlank(t: string, n: nat): (b: int)
    requires n <= |t|
    ensures -1 <= b < n
    ensures b >= 0 ==> t[b] == ' '
    ensures forall j :: b < j < n ==> t[j] != ' '
  {
    if n == 0 then -1 else if t[n - 1] == ' ' then n - 1 else RFindBlank(t, n - 1)
  }

  // ---- the splitter ----

  /** A counter under which a prefix never costs more than the whole. */
  ghost predicate PrefixMonotone(counter: string -> nat) {
    forall t: string, k: nat :: k <= |t| ==> counter(t[..k]) <= counter(t)
  }

  lemma DefaultIsPrefixMonotone()
    ensures PrefixMonotone(DefaultTokenCounter)
  {
    forall t: string, k: nat | k <= |t| ensures DefaultTokenCounter(t[..k]) <= DefaultTokenCounter(t) {
      CountOfPrefix(t, k);
    }
  }

  /** Where bisection between two lengths stops, for whatever counter it is given. */
  function Bisect(counter: string -> nat, text: string, budget: int, low: nat, high: nat): (at: nat)
    requires low <= high <= |text|
    ensures low <= at <= high
    decreases high - low
  {
    if low == high then low
    else
      var middle := (low + high + 1) / 2;
      if counter(text[..middle]) <= budget then Bisect(counter, text, budget, middle, high)
      else Bisect(counter, text, budget, low, middle - 1)
  }

  /** Prefer a word boundary when that does not erase the entire prefix. */
  function Retreat(text: string, at: nat): (cut: nat)
    requires at <= |text|
    ensures cut <= at && (at > 0 ==> cut > 0)
  {
    if 0 < at < |text| && IsAscii(text[at - 1]) then
      var boundary := RFindBlank(text, at);
      if boundary > 0 then boundary else at
    else at
  }

  function Split(counter: string -> nat, text: string, budget: int): (string, string) {
    if budget <= 0 || text == "" then ("", text)
    else if counter(text) <= budget then (text, "")
    else
      var cut := Retreat(text, Bisect(counter, text, budget, 0, |text|));
      (RStrip(text[..cut]), LStrip(text[cut..]))
  }

  method SplitToTokenBudget(counter: string -> nat, text: string, budget: int) returns (head: string, tail: string)
    ensures (head, tail) == Split(counter, text, budget)
  {
    if budget <= 0 || text == "" {
      return "", text;
    }
    if counter(text) <= budget {
      return text, "";
    }
    var low, high := 0, |text|;
    while low < high
      invariant 0 <= low <= high <= |text|
      invariant Bisect(counter, text, budget, low, high) == Bisect(counter, text, budget, 0, |text|)
    {
      var middle := (low + high + 1) / 2;
      if counter(text[..middle]) <= budget {
        low := middle;
      } else {
        high := middle - 1;
      }
    }
    assert low == Bisect(counter, text, budget, 0, |text|);
    var splitAt := low;
    if splitAt < |text| && splitAt > 0 && IsAscii(text[splitAt - 1]) {
      var boundary := RFindBlank(text, splitAt);
      if boundary > 0 {
        splitAt := boundary;
      }
    }
    assert splitAt == Retreat(text, low);
    return RStrip(text[..splitAt]), LStrip(text[splitAt..]);
  }

  lemma {:induction false} BisectIsLongest(counter: string -> nat, text: string, budget: int, low: nat, high: nat)
    requires low <= high <= |text| && PrefixMonotone(counter)
    requires counter(text[..low]) <= budget
    requires forall k :: high < k <= |text| ==> counter(text[..k]) > budget
    ensures var at := Bisect(counter, text, budget, low, high);
      && counter(text[..at]) <= budget
      && forall k :: at < k <= |text| ==> counter(text[..k]) > budget
    decreases high - low
  {
    if low < high {
      var middle := (low + high + 1) / 2;
      if counter(text[..middle]) <= budget {
        BisectIsLongest(counter, text, budget, middle, high);
      } else {
        forall k | middle <= k <= |text| ensures counter(text[..k]) > budget {
          assert text[..k][..middle] == text[..middle];
        }
        BisectIsLongest(counter, text, budget, low, middle - 1);
      }
    }
  }

  /** Before the retreat, bisection finds the longest prefix the counter accepts. */
  lemma LongestPrefix(counter: string -> nat, text: string, budget: int)
    requires PrefixMonotone(counter) && counter("") <= budget
    ensures var at := Bisect(counter, text, budget, 0, |text|);
      forall k :: 0 <= k <= |text| ==> (counter(text[..k]) <= budget <==> k <= at)
  {
    var at := Bisect(counter, text, budget, 0, |text|);
    assert text[..0] == "";
    BisectIsLongest(counter, text, budget, 0, |text|);
    forall k | 0 <= k <= at ensures counter(text[..k]) <= budget {
      assert text[..at][..k] == text[..k];
    }
  }

  /** With the default estimate the longest prefix of a line that is too long uses the budget up. */
  lemma LongestPrefixFills(text: string, budget: nat)
    requires DefaultTokenCounter(text) > budget
    ensures DefaultTokenCounter(text[..Bisect(DefaultTokenCounter, text, budget, 0, |text|)]) == budget
  {
    DefaultIsPrefixMonotone();
    LongestPrefix(DefaultTokenCounter, text, budget);
    var at := Bisect(DefaultTokenCounter, text, budget, 0, |text|);
    assert text[..|text|] == text;
    assert text[..at + 1][..at] == text[..at];
    CountOfPrefix(text[..at + 1], at);
  }

  lemma {:induction false} BisectAccepted(counter: string -> nat, text: string, budget: int, low: nat, high: nat)
    requires low <= high <= |text|
    requires low == 0 || counter(text[..low]) <= budget
    ensures var at := Bisect(counter, text, budget, low, high); at == 0 || counter(text[..at]) <= budget
    decreases high - low
  {
    if low < high {
      var middle: nat := (low + high + 1) / 2;
      assert low < middle <= high;
      if counter(text[..middle]) <= budget {
        BisectAccepted(counter, text, budget, middle, high);
      } else {
        BisectAccepted(counter, text, budget, low, middle - 1);
      }
    }
  }

  /** The head that is kept fits the budget, even after the retreat and the strip. */
  lemma SplitHeadFits(counter: string -> nat, text: string, budget: int)
    requires PrefixMonotone(counter)
    ensures var (head, _) := Split(counter, text, budget); head == "" || counter(head) <= budget
  {
    if budget > 0 && text != "" && counter(text) > budget {
      var at := Bisect(counter, text, budget, 0, |text|);
      BisectAccepted(counter, text, budget, 0, |text|);
      var cut := Retreat(text, at);
      var head := RStrip(text[..cut]);
      assert text[..at][..|head|] == head;
    }
  }

  ghost predicate AllSpace(t: string) {
    forall i :: 0 <= i < |t| ==> IsSpace(t[i])
  }

  lemma RStripKeeps(t: string) returns (gap: string)
    ensures t == RStrip(t) + gap && AllSpace(gap)
  {
    gap := t[|RStrip(t)|..];
  }

  lemma LStripKeeps(t: string) returns (gap: string)
    ensures t == gap + LStrip(t) && AllSpace(gap)
  {
    gap := t[..|t| - |LStrip(t)|];
  }

  lemma SpaceJoins(a: string, b: string)
    requires AllSpace(a) && AllSpace(b)
    ensures AllSpace(a + b)
  {
  }

  lemma Regroup(a: string, b: string, head: string, left: string, right: string, tail: string)
    requires a == head + left && b == right + tail
    ensures a + b == head + (left + right) + tail
  {
  }

  lemma StripKeepsText(text: string, cut: nat) returns (gap: string)
    requires cut <= |text|
    ensures text == RStrip(text[..cut]) + gap + LStrip(text[cut..]) && AllSpace(gap)
  {
    hide IsSpace, AllSpace, RStrip, LStrip;
    var a, b := text[..cut], text[cut..];
    var left := RStripKeeps(a);
    var right := LStripKeeps(b);
    gap := left + right;
    SpaceJoins(left, right);
    Regroup(a, b, RStrip(a), left, right, LStrip(b));
    assert text == a + b;
  }

  /** Nothing but white space is lost at the cut, whatever the counter. */
  lemma SplitKeepsText(counter: string -> nat, text: string, budget: int) returns (gap: string)
    ensures var (head, tail) := Split(counter, text, budget);
      text == head + gap + tail && AllSpace(gap)
  {
    var (head, tail) := Split(counter, text, budget);
    if budget <= 0 || text == "" || counter(text) <= budget {
      gap := "";
    } else {
      gap := StripKeepsText(text, Retreat(text, Bisect(counter, text, budget, 0, |text|)));
    }
  }

  lemma {:induction false} NoStarts(t: string, n: nat)
    requires AllSpace(t) && n <= |t|
    ensures Starts(t, n) == 0
  {
    if n > 0 {
      NoStarts(t, n - 1);
    }
  }

  lemma {:induction false} SpaceCounts(t: string)
    requires AllSpace(t)
    ensures DefaultTokenCounter(t) == 0
  {
    PiecesAreStarts(t, 0);
    NoStarts(t, |t|);
  }

  lemma StripCounts(a: string, b: string)
    ensures DefaultTokenCounter(RStrip(a)) == DefaultTokenCounter(a)
    ensures DefaultTokenCounter(LStrip(b)) == DefaultTokenCounter(b)
  {
    var h, l := RStrip(a), LStrip(b);
    assert a == h + a[|h|..];
    CountAcrossSeam(h, a[|h|..]);
    SpaceCounts(a[|h|..]);
    assert b == b[..|b| - |l|] + l;
    CountAcrossSeam(b[..|b| - |l|], l);
    SpaceCounts(b[..|b| - |l|]);
  }

  lemma {:induction false} CutStarts(text: string, cut: nat, n: nat)
    requires cut + n <= |text|
    ensures var rest := Starts(text, cut + n) - Starts(text, cut);
      rest <= Starts(text[cut..], n) <= rest + (if n > 0 then 1 else 0)
  {
    if n > 0 {
      CutStarts(text, cut, n - 1);
      assert text[cut..][n - 1] == text[cut + n - 1];
      if n > 1 {
        assert StartsPiece(text[cut..], n - 1) == StartsPiece(text, cut + n - 1);
      }
    }
  }

  /** A cut anywhere adds at most the one token of a run broken in two. */
  lemma CutCounts(text: string, cut: nat)
    requires cut <= |text|
    ensures var both := DefaultTokenCounter(text[..cut]) + DefaultTokenCounter(text[cut..]);
      DefaultTokenCounter(text) <= both <= DefaultTokenCounter(text) + 1
  {
    PiecesAreStarts(text, 0);
    PiecesAreStarts(text[cut..], 0);
    CountOfPrefix(text, cut);
    CutStarts(text, cut, |text| - cut);
  }

  /** Head and tail together cost what the line did, plus at most the one run the cut may break in two. */
  lemma SplitTokensConserved(text: string, budget: nat)
    requires text != "" && 0 < budget < DefaultTokenCounter(text)
    ensures var (head, tail) := Split(DefaultTokenCounter, text, budget);
      var both := DefaultTokenCounter(head) + DefaultTokenCounter(tail);
      DefaultTokenCounter(text) <= both <= DefaultTokenCounter(text) + 1
  {
    hide IsSpace, DefaultTokenCounter, Bisect, Retreat, RStrip, LStrip;
    var (head, tail) := Split(DefaultTokenCounter, text, budget);
    var cut := Retreat(text, Bisect(DefaultTokenCounter, text, budget, 0, |text|));
    var a, b := text[..cut], text[cut..];
    assert text == a + b;
    StripCounts(a, b);
    CutCounts(text, cut);
  }

  ghost predicate HasBlank(text: string, at: nat)
    requires at <= |text|
  {
    exists b :: 0 < b < at && text[b] == ' '
  }

  /** An overlong text is cut where its longest fitting prefix ends or, if that prefix ends in an ASCII character and has
      a blank behind its first character, at the last such blank. */
  lemma SplitsAtBlank(counter: string -> nat, text: string, budget: int) returns (at: nat, cut: nat)
    requires PrefixMonotone(counter) && counter("") <= budget && budget > 0 && counter(text) > budget
    ensures at < |text| && counter(text[..at]) <= budget < counter(text[..at + 1])
    ensures cut <= at && Split(counter, text, budget) == (RStrip(text[..cut]), LStrip(text[cut..]))
    ensures if at > 0 && text[at - 1] < '\U{80}' && HasBlank(text, at) then
              0 < cut && text[cut] == ' ' && forall b :: cut < b < at ==> text[b] != ' '
            else cut == at
  {
    hide Bisect, PrefixMonotone, RStrip, LStrip;
    at := Bisect(counter, text, budget, 0, |text|);
    LongestPrefix(counter, text, budget);
    assert text[..|text|] == text;
    cut := Retreat(text, at);
  }
}
