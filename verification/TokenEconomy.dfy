/**
 Token estimates and truncation to a token budget. Texts are sequences of UTF-16 units;
 scales are exact reals. How a text splits into segments, and how segments rank, are
 inputs: any answers of the pattern matching are allowed.
 */
module TokenEconomy {
  import opened Numbers

  type Text = seq<char>

  predicate IsAscii(c: char) { c <= '\U{007F}' }

  predicate Ascii(t: Text) { forall i :: 0 <= i < |t| ==> IsAscii(t[i]) }

  function AsciiCount(t: Text): (n: nat)
    ensures n <= |t| && (Ascii(t) ==> n == |t|)
  {
    if t == [] then 0 else AsciiCount(t[..|t| - 1]) + (if IsAscii(t[|t| - 1]) then 1 else 0)
  }

  function BaseTokenEstimate(t: Text): nat {
    if t == [] then 0
    else Max(1, Ceil(AsciiCount(t) as real / 4.0 + (|t| - AsciiCount(t)) as real / 2.2))
  }

  function Scaled(base: nat, scale: real): nat {
    if base == 0 then 0 else Max(1, Ceil(base as real * scale))
  }

  function EstimateTokenCount(t: Text, scale: real): nat { Scaled(BaseTokenEstimate(t), scale) }

  // ---------- pieces of text ----------

  /** White space and line ends, as String.prototype.trim of ECMA-262 takes them off. */
  predicate Space(c: char) {
    || '\t' <= c <= '\r' || c == ' ' || c == '\U{00A0}' || c == '\U{1680}' || '\U{2000}' <= c <= '\U{200A}'
    || c == '\U{2028}' || c == '\U{2029}' || c == '\U{202F}' || c == '\U{205F}' || c == '\U{3000}' || c == '\U{FEFF}'
  }

  function TrimEnd(t: Text): (r: Text)
    ensures |r| <= |t| && r == t[..|r|]
  {
    if t != [] && Space(t[|t| - 1]) then TrimEnd(t[..|t| - 1]) else t
  }

  function TrimStart(t: Text): (r: Text)
    ensures |r| <= |t| && r == t[|t| - |r|..]
  {
    if t != [] && Space(t[0]) then TrimStart(t[1..]) else t
  }

  /** Trimming an end takes blanks off, and all of them. */
  lemma {:induction false} TrimEndExact(t: Text)
    ensures forall i :: |TrimEnd(t)| <= i < |t| ==> Space(t[i])
    ensures TrimEnd(t) != [] ==> !Space(TrimEnd(t)[|TrimEnd(t)| - 1])
  {
    hide Space;
    if t != [] && Space(t[|t| - 1]) {
      TrimEndExact(t[..|t| - 1]);
    }
  }

  lemma {:induction false} TrimStartExact(t: Text)
    ensures forall i :: 0 <= i < |t| - |TrimStart(t)| ==> Space(t[i])
    ensures TrimStart(t) != [] ==> !Space(TrimStart(t)[0])
  {
    hide Space;
    if t != [] && Space(t[0]) {
      TrimStartExact(t[1..]);
      assert forall i :: 0 < i < |t| ==> t[i] == t[1..][i - 1];
    }
  }

  /** Tabs, line ends, spaces, no-break spaces and the byte order mark are blanks; no printing ASCII is. */
  lemma BlanksExact(c: char)
    ensures c in " \t\n\r" || c == '\U{00A0}' || c == '\U{3000}' || c == '\U{FEFF}' ==> Space(c)
    ensures '!' <= c <= '~' ==> !Space(c)
  {
  }

  function Head(t: Text, n: nat): Text { if n < |t| then t[..n] else t }

  function Tail(t: Text, n: nat): Text { if n < |t| then t[|t| - n..] else t }

  function Floored(scale: real): real { if scale < 0.65 then 0.65 else scale }

  function MaxChars(budget: int, scale: real): (chars: int)
    ensures chars >= 64
  {
    Max(64, (budget as real / Floored(scale) * 3.1).Floor)
  }

  function EndsAt(t: Text, marker: Text, headChars: nat, tailChars: nat): Text {
    TrimEnd(Head(t, headChars)) + marker + TrimStart(Tail(t, tailChars))
  }

  function Available(marker: Text, maxChars: int): (n: int)
    ensures n >= 32
  {
    Max(32, maxChars - |marker|)
  }

  function HeadChars(available: int): (n: int)
    requires available >= 32
    ensures 16 <= n <= available - 16
  {
    Max(16, (available as real * 0.5).Floor)
  }

  /** The head and the tail of a text around the marker: the exit when nothing else fits. */
  function Ends(t: Text, marker: Text, maxChars: int): Text {
    var available := Available(marker, maxChars);
    EndsAt(t, marker, HeadChars(available), Max(16, available - HeadChars(available)))
  }

  function Join(parts: seq<Text>): Text {
    if parts == [] then [] else if |parts| == 1 then parts[0]
    else Join(parts[..|parts| - 1]) + "\n\n" + parts[|parts| - 1]
  }

  predicate Indices(ordered: seq<nat>, n: nat) { forall i :: 0 <= i < |ordered| ==> ordered[i] < n }

  function Pick(ordered: seq<nat>, segments: seq<Text>): seq<Text>
    requires Indices(ordered, |segments|)
  {
    seq(|ordered|, i requires 0 <= i < |ordered| => segments[ordered[i]])
  }

  /** The kept segments in order, with a trimmed marker wherever segments between two of them are left out. */
  function Parts(ordered: seq<nat>, segments: seq<Text>, marker: Text): seq<Text>
    requires Indices(ordered, |segments|)
  {
    if ordered == [] then [] else
      var k := |ordered| - 1;
      Parts(ordered[..k], segments, marker)
      + (if k > 0 && ordered[k] > ordered[k - 1] + 1 then [TrimStart(TrimEnd(marker))] else [])
      + [segments[ordered[k]]]
  }

  function Render(ordered: seq<nat>, segments: seq<Text>, marker: Text): Text
    requires Indices(ordered, |segments|)
  {
    Join(Parts(ordered, segments, marker))
  }

  lemma JoinNext(parts: seq<Text>, last: Text)
    ensures Join(parts + [last]) == if parts == [] then last else Join(parts) + "\n\n" + last
  {
    assert (parts + [last])[..|parts|] == parts;
  }

  /** Rendering the kept segments from their parts is what rendering them one after the other gives: each
      is set off by a blank line, and by the marker before that when segments are left out in between. */
  lemma RenderNext(ordered: seq<nat>, segments: seq<Text>, marker: Text, next: nat)
    requires Indices(ordered, |segments|) && next < |segments|
    ensures Indices(ordered + [next], |segments|)
    ensures Render(ordered + [next], segments, marker) ==
            if ordered == [] then segments[next]
            else Render(ordered, segments, marker)
                 + (if next > ordered[|ordered| - 1] + 1 then "\n\n" + TrimStart(TrimEnd(marker)) else "")
                 + "\n\n" + segments[next]
  {
    hide TrimStart, TrimEnd, Join, Parts;
    PartsNext(ordered, segments, marker, next);
    var parts, m := Parts(ordered, segments, marker), TrimStart(TrimEnd(marker));
    JoinNext(parts, segments[next]);
    JoinNext(parts, m);
    JoinNext(parts + [m], segments[next]);
    SomeParts(ordered, segments, marker);
  }

  lemma PartsNext(ordered: seq<nat>, segments: seq<Text>, marker: Text, next: nat)
    requires Indices(ordered, |segments|) && next < |segments|
    ensures Indices(ordered + [next], |segments|)
    ensures Parts(ordered + [next], segments, marker) ==
            if ordered != [] && next > ordered[|ordered| - 1] + 1
            then Parts(ordered, segments, marker) + [TrimStart(TrimEnd(marker))] + [segments[next]]
            else Parts(ordered, segments, marker) + [segments[next]]
  {
    hide TrimStart, TrimEnd;
    var longer := ordered + [next];
    assert longer[..|ordered|] == ordered;
    assert Parts(ordered, segments, marker) + [] == Parts(ordered, segments, marker);
  }

  lemma SomeParts(ordered: seq<nat>, segments: seq<Text>, marker: Text)
    requires Indices(ordered, |segments|)
    ensures Parts(ordered, segments, marker) == [] <==> ordered == []
  {
  }

  /** The members of a set of segment indices, in increasing order. */
  function Sorted(selected: set<nat>, n: nat): (ordered: seq<nat>)
    ensures Indices(ordered, n)
    ensures forall i :: i in ordered <==> i in selected && i < n
    ensures |ordered| <= n
  {
    if n == 0 then [] else Sorted(selected, n - 1) + if n - 1 in selected then [n - 1] else []
  }

  // ---------- length and token bounds ----------

  /** The two ends around a marker of at most 32 units take no more than the room they were given. */
  lemma EndsLength(t: Text, marker: Text, maxChars: int)
    requires |marker| <= 32 && maxChars >= 64
    ensures |Ends(t, marker, maxChars)| <= maxChars
  {
    hide HeadChars, TrimEnd, TrimStart;
  }

  lemma EndsAscii(t: Text, marker: Text, maxChars: int)
    requires Ascii(t) && Ascii(marker)
    ensures Ascii(Ends(t, marker, maxChars))
  {
    hide HeadChars, EndsAt, Ascii;
    var available := Available(marker, maxChars);
    EndsAtAscii(t, marker, HeadChars(available), Max(16, available - HeadChars(available)));
  }

  lemma EndsAtAscii(t: Text, marker: Text, headChars: nat, tailChars: nat)
    requires Ascii(t) && Ascii(marker)
    ensures Ascii(EndsAt(t, marker, headChars, tailChars))
  {
    hide TrimEnd, TrimStart;
    TrimAscii(Head(t, headChars));
    TrimAscii(Tail(t, tailChars));
  }

  lemma TrimAscii(t: Text)
    requires Ascii(t)
    ensures Ascii(TrimEnd(t)) && Ascii(TrimStart(t))
  {
  }

  lemma CeilLess(x: real)
    ensures x <= Ceil(x) as real < x + 1.0
  {
  }

  lemma BaseBound(t: Text, length: int)
    requires |t| <= length && length >= 4
    ensures Ascii(t) ==> BaseTokenEstimate(t) as real < length as real / 4.0 + 1.0
    ensures BaseTokenEstimate(t) as real < length as real / 2.2 + 1.0
  {
    if t != [] {
      var x := AsciiCount(t) as real / 4.0 + (|t| - AsciiCount(t)) as real / 2.2;
      CeilLess(x);
      assert x <= |t| as real / 2.2;
    }
  }

  lemma TimesLess(x: real, y: real, z: real)
    requires x < y && z > 0.0
    ensures x * z < y * z
  {
  }

  lemma TimesAtMost(x: real, y: real, z: real)
    requires x <= y && z > 0.0
    ensures x * z <= y * z
  {
  }

  lemma TimesPlusOne(q: real, z: real)
    ensures (q + 1.0) * z == q * z + z
  {
  }

  lemma TimesQuotient(chars: real, rate: real, z: real)
    requires rate > 0.0
    ensures chars / rate * z == chars * z / rate
  {
  }

  lemma QuotientTimes(budget: real, scale: real)
    requires scale > 0.0
    ensures budget / scale * 3.1 * scale == 3.1 * budget
  {
    assert budget / scale * scale == budget;
  }

  /** A base estimate at one token per `rate` units, scaled, for the units a budget allows. */
  lemma ScaledBound(base: real, chars: int, rate: real, budget: int, scale: real)
    requires scale > 0.0 && (rate == 4.0 || rate == 2.2) && base < chars as real / rate + 1.0
    requires chars == (budget as real / scale * 3.1).Floor
    ensures base * scale < 3.1 * budget as real / rate + scale
  {
    var q := budget as real / scale * 3.1;
    TimesLess(base, chars as real / rate + 1.0, scale);
    TimesPlusOne(chars as real / rate, scale);
    TimesQuotient(chars as real, rate, scale);
    QuotientTimes(budget as real, scale);
    TimesAtMost(chars as real, q, scale);
    DivideAtMost(chars as real * scale, 3.1 * budget as real, rate);
  }

  lemma DivideAtMost(x: real, y: real, rate: real)
    requires rate > 0.0 && x <= y
    ensures x / rate <= y / rate
  {
  }

  lemma AsciiTokens(base: int, budget: int, scale: real)
    requires 0.65 <= scale <= 1.8 && budget >= 16 && 16.0 * scale <= budget as real
    requires base as real < MaxChars(budget, scale) as real / 4.0 + 1.0
    ensures base as real * scale <= budget as real
  {
    var chars := (budget as real / scale * 3.1).Floor;
    if chars < 64 {
      assert base <= 16;
      TimesAtMost(base as real, 16.0, scale);
    } else {
      ScaledBound(base as real, chars, 4.0, budget, scale);
    }
  }

  lemma AnyTokens(base: int, budget: int, scale: real)
    requires 0.65 <= scale <= 1.8 && budget >= 37
    requires base as real < MaxChars(budget, scale) as real / 2.2 + 1.0
    ensures base as real * scale <= 31.0 / 22.0 * budget as real + 2.0
  {
    var chars := (budget as real / scale * 3.1).Floor;
    if chars < 64 {
      FewTokens(base as real, scale);
    } else {
      ScaledBound(base as real, chars, 2.2, budget, scale);
    }
  }

  lemma FewTokens(base: real, scale: real)
    requires 0.0 < scale <= 1.8 && base <= 30.0
    ensures base * scale <= 54.0
  {
    TimesAtMost(base, 30.0, scale);
  }

  lemma ScaledAtMost(base: nat, scale: real, n: nat)
    requires n >= 1 && base as real * scale <= n as real
    ensures Scaled(base, scale) <= n
  {
  }

  lemma ScaledBelow(base: nat, scale: real, x: real)
    requires x >= 0.0 && base as real * scale <= x
    ensures Scaled(base, scale) as real <= x + 1.0
  {
  }

  /** A text no longer than the budget's character allowance is estimated within the budget, if it is ASCII. */
  lemma AllowanceAscii(t: Text, budget: int, scale: real)
    requires Ascii(t) && |t| <= MaxChars(budget, scale)
    requires 0.65 <= scale <= 1.8 && budget >= 16 && 16.0 * scale <= budget as real
    ensures EstimateTokenCount(t, scale) <= budget
  {
    hide MaxChars, BaseTokenEstimate, Scaled;
    BaseBound(t, MaxChars(budget, scale));
    AsciiTokens(BaseTokenEstimate(t), budget, scale);
    ScaledAtMost(BaseTokenEstimate(t), scale, budget);
  }

  /** Any text at all within the allowance is estimated at no more than 31/22 of the budget plus 3. */
  lemma AllowanceAny(t: Text, budget: int, scale: real)
    requires |t| <= MaxChars(budget, scale)
    requires 0.65 <= scale <= 1.8 && budget >= 37
    ensures EstimateTokenCount(t, scale) as real <= 31.0 / 22.0 * budget as real + 3.0
  {
    hide MaxChars, BaseTokenEstimate, Scaled;
    BaseBound(t, MaxChars(budget, scale));
    AnyTokens(BaseTokenEstimate(t), budget, scale);
    ScaledBelow(BaseTokenEstimate(t), scale, 31.0 / 22.0 * budget as real + 2.0);
  }

  /** An ASCII text is estimated at a token for every four units, at the scale of one; and a text without
      an ASCII unit at ten for every twenty-two. Parts of a token count as one. */
  lemma EstimateExact(t: Text)
    requires t != []
    ensures Ascii(t) ==> EstimateTokenCount(t, 1.0) == (|t| + 3) / 4
    ensures AsciiCount(t) == 0 ==> EstimateTokenCount(t, 1.0) == (10 * |t| + 21) / 22
  {
    hide AsciiCount;
    if Ascii(t) {
      CeilQuotient(|t|, 4);
    } else if AsciiCount(t) == 0 {
      CeilQuotient(10 * |t|, 22);
      assert |t| as real / 2.2 == (10 * |t|) as real / 22.0;
    }
  }

  lemma CeilQuotient(x: nat, y: nat)
    requires y > 0
    ensures Ceil(x as real / y as real) == (x + y - 1) / y
  {
    var n := (x + y - 1) / y;
    assert n * y <= x + y - 1 && x <= n * y;
    QuotientBetween(x, y, n);
  }

  lemma QuotientBetween(x: nat, y: nat, n: nat)
    requires y > 0 && (n - 1) * y < x <= n * y
    ensures (n - 1) as real < x as real / y as real <= n as real
  {
    assert x as real / y as real * y as real == x as real;
    assert ((n - 1) * y) as real == (n - 1) as real * y as real;
    assert (n * y) as real == n as real * y as real;
  }

  // ---------- the truncation ----------

  predicate AllAscii(ts: seq<Text>) { forall i :: 0 <= i < |ts| ==> Ascii(ts[i]) }

  lemma {:induction false} JoinAscii(parts: seq<Text>)
    requires AllAscii(parts)
    ensures Ascii(Join(parts))
  {
    if |parts| > 1 {
      JoinAscii(parts[..|parts| - 1]);
    }
  }

  lemma {:induction false} PartsAscii(ordered: seq<nat>, segments: seq<Text>, marker: Text)
    requires Indices(ordered, |segments|) && AllAscii(segments) && Ascii(marker)
    ensures AllAscii(Parts(ordered, segments, marker))
  {
    if ordered != [] {
      PartsAscii(ordered[..|ordered| - 1], segments, marker);
    }
  }

  predicate Increasing(ordered: seq<nat>) { forall i, j :: 0 <= i < j < |ordered| ==> ordered[i] < ordered[j] }

  lemma {:induction false} SortedIncreasing(selected: set<nat>, n: nat)
    ensures Increasing(Sorted(selected, n))
  {
    if n > 0 {
      SortedIncreasing(selected, n - 1);
    }
  }

  /** The position of the first segment of least priority strictly between the first and the last. */
  function Removable(ordered: seq<nat>, priority: nat -> real, k: nat): (r: nat)
    requires 1 <= k < |ordered| - 1
    ensures 1 <= r <= k
    ensures forall j :: 1 <= j <= k ==> priority(ordered[r]) <= priority(ordered[j])
  {
    if k == 1 then 1 else
      var r := Removable(ordered, priority, k - 1);
      if priority(ordered[k]) < priority(ordered[r]) then k else r
  }

  /** The result is the text, a rendering of some segments in order, or the two ends of one of these. */
  ghost predicate Shape(out: Text, text: Text, budget: int, marker: Text, segments: seq<Text>, scale: real) {
    || out == text
    || out == Ends(text, marker, MaxChars(budget, scale))
    || exists ordered :: Indices(ordered, |segments|) && Increasing(ordered) &&
         (out == Render(ordered, segments, marker)
          || out == Ends(Render(ordered, segments, marker), marker, MaxChars(budget, scale)))
  }

  /** The text the greedy selection measures against the budget. */
  function Preview(selected: set<nat>, segments: seq<Text>, marker: Text): Text {
    Join(Pick(Sorted(selected, |segments|), segments)) + marker
  }

  predicate Fits(t: Text, budget: int, scale: real) { EstimateTokenCount(t, scale) <= budget }

  /** The segments selected greedily, in the order they are ranked. */
  function Greedy(ranked: seq<nat>, segments: seq<Text>, marker: Text, budget: int, scale: real): set<nat> {
    if ranked == [] then {}
    else
      var before := Greedy(ranked[..|ranked| - 1], segments, marker, budget, scale);
      var more := before + {ranked[|ranked| - 1]};
      if Fits(Preview(more, segments, marker), budget, scale) then more else before
  }

  /** The segments kept for the rendering: the least important ones go, never the first or the last, as
      long as it is over budget and more than two are left. */
  function Thinned(ordered: seq<nat>, segments: seq<Text>, marker: Text, priority: nat -> real, budget: int, scale: real)
    : (kept: seq<nat>)
    requires Indices(ordered, |segments|)
    ensures Indices(kept, |segments|)
    decreases |ordered|
  {
    if Fits(Render(ordered, segments, marker), budget, scale) || |ordered| <= 2 then ordered
    else Thinned(Drop(ordered, Removable(ordered, priority, |ordered| - 2)), segments, marker, priority, budget, scale)
  }

  function Drop(ordered: seq<nat>, k: nat): seq<nat>
    requires k < |ordered|
  {
    ordered[..k] + ordered[k + 1..]
  }

  /** A segment is selected exactly when, beside the selected ones ranked before it, it fits. */
  lemma {:induction false} GreedyExact(ranked: seq<nat>, segments: seq<Text>, marker: Text, budget: int, scale: real, i: nat)
    requires i < |ranked| && forall j, k :: 0 <= j < k < |ranked| ==> ranked[j] != ranked[k]
    ensures ranked[i] in Greedy(ranked, segments, marker, budget, scale) <==>
            Fits(Preview(Greedy(ranked[..i], segments, marker, budget, scale) + {ranked[i]}, segments, marker), budget, scale)
    ensures forall x :: x in Greedy(ranked, segments, marker, budget, scale) ==> x in ranked
  {
    hide Fits, Preview;
    var n := |ranked| - 1;
    GreedyRanked(ranked, segments, marker, budget, scale);
    GreedyRanked(ranked[..i], segments, marker, budget, scale);
    GreedyRanked(ranked[..n], segments, marker, budget, scale);
    if i < n {
      GreedyExact(ranked[..n], segments, marker, budget, scale, i);
      assert ranked[..n][..i] == ranked[..i];
    }
  }

  lemma {:induction false} GreedyRanked(ranked: seq<nat>, segments: seq<Text>, marker: Text, budget: int, scale: real)
    ensures forall x :: x in Greedy(ranked, segments, marker, budget, scale) ==> x in ranked
    ensures Greedy(ranked, segments, marker, budget, scale) != {} ==>
              Fits(Preview(Greedy(ranked, segments, marker, budget, scale), segments, marker), budget, scale)
  {
    hide Fits, Preview;
    if ranked != [] {
      GreedyRanked(ranked[..|ranked| - 1], segments, marker, budget, scale);
    }
  }

  /** Dropping an inner segment takes out that one, and leaves order and ends. */
  lemma DropExact(ordered: seq<nat>, k: nat)
    requires 1 <= k < |ordered| - 1
    ensures Drop(ordered, k)[0] == ordered[0] && Drop(ordered, k)[|ordered| - 2] == ordered[|ordered| - 1]
    ensures Increasing(ordered) ==> Increasing(Drop(ordered, k))
    ensures forall x :: x in Drop(ordered, k) ==> x in ordered
    ensures forall x :: x in ordered ==> x in Drop(ordered, k) || x == ordered[k]
  {
    var fewer := Drop(ordered, k);
    forall x | x in fewer ensures x in ordered {
      var j :| 0 <= j < |fewer| && fewer[j] == x;
      assert x == ordered[if j < k then j else j + 1];
    }
    forall x | x in ordered && x != ordered[k] ensures x in fewer {
      var j :| 0 <= j < |ordered| && ordered[j] == x;
      assert fewer[if j < k then j else j - 1] == x;
    }
  }

  /** Thinning stops at the first rendering that fits, or at two segments; the order, the first and the
      last segment stay. */
  lemma {:induction false} ThinnedEnds(ordered: seq<nat>, segments: seq<Text>, marker: Text, priority: nat -> real,
                                       budget: int, scale: real)
    requires Indices(ordered, |segments|) && Increasing(ordered) && ordered != []
    ensures var kept := Thinned(ordered, segments, marker, priority, budget, scale);
      && Increasing(kept) && kept != [] && kept[0] == ordered[0] && kept[|kept| - 1] == ordered[|ordered| - 1]
      && (Fits(Render(kept, segments, marker), budget, scale) || |kept| <= 2)
      && (Fits(Render(ordered, segments, marker), budget, scale) ==> kept == ordered)
      && forall x :: x in kept ==> x in ordered
    decreases |ordered|
  {
    hide Fits, Render, Drop, Increasing, Removable;
    if !Fits(Render(ordered, segments, marker), budget, scale) && |ordered| > 2 {
      var k := Removable(ordered, priority, |ordered| - 2);
      DropExact(ordered, k);
      LessByOne(ordered, k);
      ThinnedEnds(Drop(ordered, k), segments, marker, priority, budget, scale);
    }
  }

  lemma LessByOne(ordered: seq<nat>, k: nat)
    requires k < |ordered|
    ensures |Drop(ordered, k)| == |ordered| - 1
  {
  }

  /** Of the inner segments, those dropped are of no more importance than those kept. */
  lemma {:induction false} ThinnedLeast(ordered: seq<nat>, segments: seq<Text>, marker: Text, priority: nat -> real,
                                        budget: int, scale: real, x: nat, y: nat)
    requires Indices(ordered, |segments|) && Increasing(ordered) && ordered != []
    requires var kept := Thinned(ordered, segments, marker, priority, budget, scale);
             x in ordered && x !in kept && y in kept && y != ordered[0] && y != ordered[|ordered| - 1]
    ensures priority(x) <= priority(y)
    decreases |ordered|
  {
    hide Fits, Render, Drop, Increasing;
    if !Fits(Render(ordered, segments, marker), budget, scale) && |ordered| > 2 {
      var k := Removable(ordered, priority, |ordered| - 2);
      var fewer := Drop(ordered, k);
      DropExact(ordered, k);
      LessByOne(ordered, k);
      if x in fewer {
        ThinnedLeast(fewer, segments, marker, priority, budget, scale, x, y);
      } else {
        ThinnedEnds(fewer, segments, marker, priority, budget, scale);
        var j :| 0 <= j < |ordered| && ordered[j] == y;
        assert 1 <= j <= |ordered| - 2;
      }
    }
  }

  /** The result of truncating a text, by the segments kept. */
  function Truncated(text: Text, budget: int, marker: Text, segments: seq<Text>, ranked: seq<nat>,
                     priority: nat -> real, scale: real): Text
    requires Indices(ranked, |segments|)
  {
    var selected := Sorted(Greedy(ranked, segments, marker, budget, scale), |segments|);
    if Fits(text, budget, scale) then text
    else if |segments| == 1 || Greedy(ranked, segments, marker, budget, scale) == {}
    then Ends(text, marker, MaxChars(budget, scale))
    else
      var rendered := Render(Thinned(selected, segments, marker, priority, budget, scale), segments, marker);
      if Fits(rendered, budget, scale) then rendered else Ends(rendered, marker, MaxChars(budget, scale))
  }

  /** A text over budget is rendered from the greedy selection, whenever that, or the selection without
      its least important inner segments, fits; the ends of a text are the answer only for a single
      segment, an empty selection, or one that is down to two segments and still too long. */
  lemma TruncatedRenders(text: Text, budget: int, marker: Text, segments: seq<Text>, ranked: seq<nat>,
                         priority: nat -> real, scale: real)
    requires Indices(ranked, |segments|) && !Fits(text, budget, scale) && |segments| > 1
    requires Greedy(ranked, segments, marker, budget, scale) != {}
    ensures var out := Truncated(text, budget, marker, segments, ranked, priority, scale);
      var selected := Sorted(Greedy(ranked, segments, marker, budget, scale), |segments|);
      var kept := Thinned(selected, segments, marker, priority, budget, scale);
      && selected != [] && (forall i :: i in selected <==> i in Greedy(ranked, segments, marker, budget, scale))
      && (EstimateTokenCount(Render(selected, segments, marker), scale) <= budget ==>
            out == Render(selected, segments, marker))
      && (EstimateTokenCount(Render(kept, segments, marker), scale) <= budget ==> out == Render(kept, segments, marker))
      && (EstimateTokenCount(Render(kept, segments, marker), scale) > budget ==>
            |kept| <= 2 && out == Ends(Render(kept, segments, marker), marker, MaxChars(budget, scale)))
  {
    hide EstimateTokenCount, Render, Ends, MaxChars;
    var greedy := Greedy(ranked, segments, marker, budget, scale);
    var selected := Sorted(greedy, |segments|);
    GreedyRanked(ranked, segments, marker, budget, scale);
    var x :| x in greedy;
    var i :| 0 <= i < |ranked| && ranked[i] == x;
    assert x in selected;
    SortedIncreasing(greedy, |segments|);
    forall y ensures y in selected <==> y in greedy {
      if y in greedy {
        var j :| 0 <= j < |ranked| && ranked[j] == y;
      }
    }
    ThinnedEnds(selected, segments, marker, priority, budget, scale);
  }

  /** A text that fits is returned as it is, and of one that does not the ends are returned when it is one
      segment or no segment is selected. */
  lemma TruncatedOtherwise(text: Text, budget: int, marker: Text, segments: seq<Text>, ranked: seq<nat>,
                           priority: nat -> real, scale: real)
    requires Indices(ranked, |segments|)
    ensures EstimateTokenCount(text, scale) <= budget ==>
              Truncated(text, budget, marker, segments, ranked, priority, scale) == text
    ensures EstimateTokenCount(text, scale) > budget
            && (|segments| == 1 || Greedy(ranked, segments, marker, budget, scale) == {}) ==>
              Truncated(text, budget, marker, segments, ranked, priority, scale) == Ends(text, marker, MaxChars(budget, scale))
  {
    hide EstimateTokenCount, Ends, MaxChars;
  }

  /** The ends of a text: of the room beside the marker, at least 32 units, the first half is the head's and
      the rest the tail's. */
  lemma EndsExact(t: Text, marker: Text, maxChars: int)
    ensures var room := Max(32, maxChars - |marker|);
            Ends(t, marker, maxChars) == TrimEnd(Head(t, room / 2)) + marker + TrimStart(Tail(t, room - room / 2))
  {
    hide TrimEnd, TrimStart, Head, Tail, HeadChars;
    HalfOf(Max(32, maxChars - |marker|));
  }

  lemma HalfOf(room: nat)
    requires room >= 32
    ensures HeadChars(room) == room / 2
  {
    assert (room as real * 0.5).Floor == room / 2;
  }

  /** A budget gives 31 units for every ten tokens at the scale of one, and never less than 64. */
  lemma AllowanceExact(budget: nat)
    ensures MaxChars(budget, 1.0) == Max(64, 31 * budget / 10)
  {
    var q := 31 * budget / 10;
    assert budget as real / Floored(1.0) == budget as real;
    assert 10 * q <= 31 * budget < 10 * q + 10;
    assert q as real <= budget as real * 3.1 < q as real + 1.0;
  }

  /** Where the ends of any text are within the bounds of an estimate, so is the result. */
  predicate Bounded(t: Text, budget: int, scale: real) {
    && (Ascii(t) && 16.0 * scale <= budget as real ==> EstimateTokenCount(t, scale) <= budget)
    && (budget >= 37 ==> EstimateTokenCount(t, scale) as real <= 31.0 / 22.0 * budget as real + 3.0)
  }

  lemma EndsBounded(t: Text, marker: Text, budget: int, scale: real)
    requires |marker| <= 32 && 0.65 <= scale <= 1.8 && budget >= 16
    ensures Bounded(Ends(t, marker, MaxChars(budget, scale)), budget, scale)
  {
    hide Ends, MaxChars, EstimateTokenCount;
    var out := Ends(t, marker, MaxChars(budget, scale));
    EndsLength(t, marker, MaxChars(budget, scale));
    if Ascii(out) && 16.0 * scale <= budget as real {
      AllowanceAscii(out, budget, scale);
    }
    if budget >= 37 {
      AllowanceAny(out, budget, scale);
    }
  }

  lemma WithinBounded(t: Text, budget: int, scale: real)
    requires EstimateTokenCount(t, scale) <= budget && budget >= 16
    ensures Bounded(t, budget, scale)
  {
  }

  /** Adds one segment after the other, by rank, and takes it back when it does not fit. */
  method SelectSegments(ranked: seq<nat>, segments: seq<Text>, marker: Text, budget: int, scale: real)
    returns (selected: set<nat>)
    ensures selected == Greedy(ranked, segments, marker, budget, scale)
  {
    hide Fits, Preview;
    selected := {};
    for r := 0 to |ranked|
      invariant selected == Greedy(ranked[..r], segments, marker, budget, scale)
    {
      assert ranked[..r + 1][..r] == ranked[..r];
      var kept := selected;
      selected := selected + {ranked[r]};
      if !Fits(Preview(selected, segments, marker), budget, scale) {
        selected := kept;
      }
    }
    assert ranked[..|ranked|] == ranked;
  }

  /** Takes the least important inner segment out until the rendering fits or two are left. */
  method ThinSegments(all: seq<nat>, segments: seq<Text>, marker: Text, priority: nat -> real, budget: int, scale: real)
    returns (ordered: seq<nat>, rendered: Text)
    requires Indices(all, |segments|) && Increasing(all)
    ensures Indices(ordered, |segments|) && Increasing(ordered)
    ensures ordered == Thinned(all, segments, marker, priority, budget, scale)
    ensures rendered == Render(ordered, segments, marker)
  {
    hide Fits, Render, Removable, Increasing;
    ordered, rendered := all, Render(all, segments, marker);
    while !Fits(rendered, budget, scale) && |ordered| > 2
      invariant Indices(ordered, |segments|) && Increasing(ordered) && rendered == Render(ordered, segments, marker)
      invariant Thinned(ordered, segments, marker, priority, budget, scale)
             == Thinned(all, segments, marker, priority, budget, scale)
      decreases |ordered|
    {
      var k := Removable(ordered, priority, |ordered| - 2);
      DropExact(ordered, k);
      ordered := ordered[..k] + ordered[k + 1..];
      rendered := Render(ordered, segments, marker);
    }
  }

  /**
   Truncation to a token budget. A text that fits is returned as it is. Otherwise, with a
   marker of at most 32 units, the result is bounded on every exit: an ASCII result is
   within the budget, and any result within 31/22 of it plus 3; ASCII in gives ASCII out.
   */
  method TruncateToTokenBudget(text: Text, maxTokens: real, marker: Text, segments: seq<Text>, ranked: seq<nat>,
                               priority: nat -> real, scale: real)
    returns (out: Text)
    requires segments != [] && Indices(ranked, |segments|)
    ensures var budget := Max(16, maxTokens.Floor);
      && out == Truncated(text, budget, marker, segments, ranked, priority, scale)
      && Shape(out, text, budget, marker, segments, scale)
      && (EstimateTokenCount(text, scale) <= budget ==> out == text)
      && (0.65 <= scale <= 1.8 && |marker| <= 32 ==> Bounded(out, budget, scale))
      && (Ascii(text) && AllAscii(segments) && Ascii(marker) ==> Ascii(out))
  {
    hide Ends, MaxChars, EstimateTokenCount, Bounded, Parts, Join, Preview, Removable;
    var budget := Max(16, maxTokens.Floor);
    if EstimateTokenCount(text, scale) <= budget {
      WithinBounded(text, budget, scale);
      return text;
    }
    var maxChars := MaxChars(budget, scale);
    if |segments| == 1 {
      EndsExit(text, marker, budget, scale);
      return Ends(text, marker, maxChars);
    }
    var selected := SelectSegments(ranked, segments, marker, budget, scale);
    if selected == {} {
      EndsExit(text, marker, budget, scale);
      return Ends(text, marker, maxChars);
    }
    SortedIncreasing(selected, |segments|);
    var ordered, rendered := ThinSegments(Sorted(selected, |segments|), segments, marker, priority, budget, scale);
    if AllAscii(segments) && Ascii(marker) {
      PartsAscii(ordered, segments, marker);
      JoinAscii(Parts(ordered, segments, marker));
    }
    if EstimateTokenCount(rendered, scale) <= budget {
      WithinBounded(rendered, budget, scale);
      return rendered;
    }
    EndsExit(rendered, marker, budget, scale);
    out := Ends(rendered, marker, maxChars);
  }

  lemma EndsExit(t: Text, marker: Text, budget: int, scale: real)
    requires budget >= 16
    ensures var out := Ends(t, marker, MaxChars(budget, scale));
      && (0.65 <= scale <= 1.8 && |marker| <= 32 ==> Bounded(out, budget, scale))
      && (Ascii(t) && Ascii(marker) ==> Ascii(out))
  {
    hide Ends, MaxChars, Bounded;
    if 0.65 <= scale <= 1.8 && |marker| <= 32 {
      EndsBounded(t, marker, budget, scale);
    }
    if Ascii(t) && Ascii(marker) {
      EndsAscii(t, marker, MaxChars(budget, scale));
    }
  }

  predicate NoSpaceEnds(t: Text) { forall i :: 0 <= i < |t| ==> !Space(t[i]) }

  lemma EndsFull(t: Text, marker: Text)
    requires NoSpaceEnds(t) && |t| >= 64 && |marker| <= 32
    ensures |Ends(t, marker, 64)| == 64
  {
    hide HeadChars, EndsAt, NoSpaceEnds;
    EndsAtFull(t, marker, HeadChars(64 - |marker|), 64 - |marker| - HeadChars(64 - |marker|));
  }

  lemma EndsAtFull(t: Text, marker: Text, headChars: nat, tailChars: nat)
    requires NoSpaceEnds(t) && headChars <= |t| && tailChars <= |t|
    ensures |EndsAt(t, marker, headChars, tailChars)| == headChars + |marker| + tailChars
  {
    hide TrimEnd, TrimStart, NoSpaceEnds;
    NothingToTrim(t, headChars);
    NothingToTrim(t, tailChars);
  }

  lemma NothingToTrim(t: Text, n: nat)
    requires NoSpaceEnds(t)
    ensures TrimEnd(Head(t, n)) == Head(t, n) && TrimStart(Tail(t, n)) == Tail(t, n)
  {
  }

  /**
   The condition 16 * scale <= budget is exact where the 64-unit floor applies: there a long
   ASCII text without blanks is cut to 64 units, which fit if and only if it holds.
   */
  lemma FloorFitsIff(t: Text, marker: Text, budget: int, scale: real)
    requires Ascii(t) && Ascii(marker) && NoSpaceEnds(t) && |t| >= 64 && |marker| <= 32
    requires 0.65 <= scale && budget >= 16 && MaxChars(budget, scale) == 64
    ensures EstimateTokenCount(Ends(t, marker, MaxChars(budget, scale)), scale) <= budget
            <==> 16.0 * scale <= budget as real
  {
    hide MaxChars, Ends;
    var out := Ends(t, marker, 64);
    EndsFull(t, marker);
    EndsAscii(t, marker, 64);
    assert AsciiCount(out) == 64 && BaseTokenEstimate(out) == 16;
    CeilLess(16.0 * scale);
  }
}
