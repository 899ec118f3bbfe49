/**
 Messages of a continuity packet that fit a character budget, taken from the head or the tail.
 Lengths are in UTF-16 code units.
 */
module ContinuityMessages {
  import opened Numbers
  import opened Wrappers

  datatype Role = User | Assistant | Tool | System

  datatype Message = Message(
    role: Role, content: string, name: Option<string>, toolCallId: Option<string>, messageId: Option<string>)

  datatype Direction = Head | Tail

  function Clip(value: string, max: nat): (r: string)
    ensures |r| <= max || r == value
    ensures |r| <= max
    ensures |value| <= max ==> r == value
    ensures |value| > max > 3 ==> |r| == max && r[..max - 3] == value[..max - 3]
  {
    if |value| <= max then value
    else if max <= 3 then value[..max]
    else value[..max - 3] + "..."
  }

  function LengthOf(s: Option<string>): nat { if s.Some? then |s.value| else 0 }

  /** What a message counts besides its content. */
  function Overhead(m: Message): nat { LengthOf(m.name) + LengthOf(m.toolCallId) + 32 }

  function MessageSize(m: Message): nat { |m.content| + Overhead(m) }

  function Total(messages: seq<Message>): nat {
    if messages == [] then 0 else Total(messages[..|messages| - 1]) + MessageSize(messages[|messages| - 1])
  }

  /** The message with its content clipped to what remains of the budget. */
  function Bounded(m: Message, remaining: int): (b: Message)
    ensures ClipOf(b, m)
    ensures remaining > 64 ==> |b.content| <= Max(64, remaining - 32)
  {
    var max := Min(24000, Max(64, remaining - 32));
    ClipOfAt(m, max);
    m.(content := Clip(m.content, max))
  }

  /** The message is the source message, its content in full or clipped to at least 64 characters. */
  ghost predicate ClipOf(b: Message, m: Message) {
    b.(content := m.content) == m && exists max: nat :: ClippedTo(b, m, max)
  }

  ghost predicate ClippedTo(b: Message, m: Message, max: nat) {
    64 <= max <= 24000 && b.content == Clip(m.content, max)
  }

  lemma ClipOfAt(m: Message, max: nat)
    requires 64 <= max <= 24000
    ensures ClipOf(m.(content := Clip(m.content, max)), m)
  {
    assert ClippedTo(m.(content := Clip(m.content, max)), m, max);
  }

  // ---------- order ----------

  /** The kept messages are, clipped, the source messages at these ascending positions. */
  ghost predicate Picks(kept: seq<Message>, source: seq<Message>, at: seq<nat>) {
    && |at| == |kept|
    && (forall k :: 0 <= k < |at| ==> at[k] < |source| && ClipOf(kept[k], source[at[k]]))
    && (forall j, k :: 0 <= j < k < |at| ==> at[j] < at[k])
  }

  ghost predicate InOrder(kept: seq<Message>, source: seq<Message>) {
    exists at: seq<nat> :: Picks(kept, source, at)
  }

  function Reverse(s: seq<Message>): seq<Message> {
    seq(|s|, i requires 0 <= i < |s| => s[|s| - 1 - i])
  }

  lemma ReverseTwice(s: seq<Message>)
    ensures Reverse(Reverse(s)) == s
    ensures |Reverse(s)| == |s|
    ensures s != [] ==> Reverse(s)[0] == s[|s| - 1]
  {
  }

  lemma ReverseInOrder(kept: seq<Message>, source: seq<Message>)
    requires InOrder(kept, source)
    ensures InOrder(Reverse(kept), Reverse(source))
  {
    hide ClipOf;
    var at: seq<nat> :| Picks(kept, source, at);
    var back: seq<nat> := seq(|at|, k requires 0 <= k < |at| => |source| - 1 - at[|at| - 1 - k]);
    forall k | 0 <= k < |back| ensures back[k] < |source| && ClipOf(Reverse(kept)[k], Reverse(source)[back[k]]) {
      assert ClipOf(kept[|at| - 1 - k], source[at[|at| - 1 - k]]);
    }
    assert Picks(Reverse(kept), Reverse(source), back);
  }

  lemma {:induction false} TotalReverse(s: seq<Message>)
    ensures Total(Reverse(s)) == Total(s)
  {
    if s != [] {
      var last := s[|s| - 1];
      TotalReverse(s[..|s| - 1]);
      assert Reverse(s) == [last] + Reverse(s[..|s| - 1]);
      TotalCons(last, Reverse(s[..|s| - 1]));
    }
  }

  lemma {:induction false} TotalCons(m: Message, s: seq<Message>)
    ensures Total([m] + s) == MessageSize(m) + Total(s)
  {
    hide MessageSize;
    if s == [] {
      assert [m] + s == [m];
      assert [m][..0] == [];
    } else {
      TotalCons(m, s[..|s| - 1]);
      assert ([m] + s)[..|s|] == [m] + s[..|s| - 1];
    }
  }

  // ---------- the selection ----------

  /** What the selected messages are worth to the reader: in order, within budget but for the
      first message's own overhead, and starting with the message at the chosen end. */
  ghost predicate Selected(kept: seq<Message>, source: seq<Message>, maxChars: int) {
    && InOrder(kept, source)
    && (maxChars > 64 && source != [] ==> kept != [] && ClipOf(kept[0], source[0]))
    && (kept != [] ==> Total(kept) <= maxChars + LengthOf(kept[0].name) + LengthOf(kept[0].toolCallId) + 31)
    && (kept != [] && MessageSize(kept[0]) <= maxChars ==> Total(kept) <= maxChars)
    && (maxChars <= 64 ==> kept == [])
    && (Fits(source, maxChars) ==> kept == source)
  }

  /** The messages are short enough not to be clipped and together leave 64 characters over. */
  ghost predicate Fits(source: seq<Message>, maxChars: int) {
    Total(source) + 64 < maxChars && forall i :: 0 <= i < |source| ==> |source[i].content| <= 24000
  }

  lemma {:induction false} TotalPrefix(s: seq<Message>, i: nat)
    requires i <= |s|
    ensures Total(s[..i]) <= Total(s)
    decreases |s|
  {
    if i < |s| {
      TotalPrefix(s[..|s| - 1], i);
      assert s[..|s| - 1][..i] == s[..i];
    } else {
      assert s[..i] == s;
    }
  }

  lemma TotalNext(s: seq<Message>, i: nat)
    requires i < |s|
    ensures Total(s[..i + 1]) == Total(s[..i]) + MessageSize(s[i]) <= Total(s)
  {
    hide MessageSize;
    TotalPrefix(s, i + 1);
    assert s[..i + 1][..i] == s[..i];
  }

  lemma FittingUnclipped(m: Message, remaining: int)
    requires |m.content| <= 24000 && MessageSize(m) <= remaining
    ensures Bounded(m, remaining) == m
  {
  }

  /** The state of the selection after a prefix of the source. */
  ghost predicate Selecting(kept: seq<Message>, source: seq<Message>, i: nat, used: int, maxChars: int) {
    && i <= |source|
    && InOrder(kept, source[..i])
    && (maxChars > 64 && i > 0 ==> kept != [] && ClipOf(kept[0], source[0]))
    && (maxChars <= 64 ==> kept == [])
    && (i == 0 ==> kept == [])
    && (kept == [] ==> used == 0)
    && (Fits(source, maxChars) ==> kept == source[..i] && used == Total(kept))
    && (kept != [] && MessageSize(kept[0]) <= maxChars ==> used == Total(kept) <= maxChars)
    && (kept != [] && MessageSize(kept[0]) > maxChars ==>
          used == maxChars && |kept| == 1 && |kept[0].content| <= Max(64, maxChars - 32))
  }

  lemma PickNext(kept: seq<Message>, source: seq<Message>, i: nat, b: Message)
    requires i < |source| && InOrder(kept, source[..i]) && ClipOf(b, source[i])
    ensures InOrder(kept + [b], source[..i + 1])
  {
    hide ClipOf;
    var at: seq<nat> :| Picks(kept, source[..i], at);
    assert Picks(kept + [b], source[..i + 1], at + [i]);
  }

  lemma PickNone(kept: seq<Message>, source: seq<Message>, i: nat, j: nat)
    requires i <= j <= |source| && InOrder(kept, source[..i])
    ensures InOrder(kept, source[..j])
  {
    hide ClipOf;
    var at: seq<nat> :| Picks(kept, source[..i], at);
    assert Picks(kept, source[..j], at);
  }

  lemma FitsStep(source: seq<Message>, i: nat, maxChars: int)
    requires i < |source| && Fits(source, maxChars)
    ensures var remaining := maxChars - Total(source[..i]);
            Bounded(source[i], remaining) == source[i] && MessageSize(source[i]) <= remaining - 64
    ensures source[..i + 1] == source[..i] + [source[i]]
    ensures Total(source[..i + 1]) == Total(source[..i]) + MessageSize(source[i])
  {
    hide MessageSize, Total;
    TotalNext(source, i);
    FittingUnclipped(source[i], maxChars - Total(source[..i]));
  }

  /** A message that is dropped changes nothing but the position. */
  lemma SelectDropped(kept: seq<Message>, source: seq<Message>, i: nat, used: int, maxChars: int)
    requires Selecting(kept, source, i, used, maxChars) && i < |source| && kept != []
    requires MessageSize(Bounded(source[i], maxChars - used)) > maxChars - used
    ensures Selecting(kept, source, i + 1, used, maxChars)
  {
    hide InOrder, ClipOf, Bounded, Fits, MessageSize, Total;
    if Fits(source, maxChars) {
      FitsStep(source, i, maxChars);
    }
    PickNone(kept, source, i, i + 1);
  }

  /** The first message is taken even if it is too large by itself. */
  lemma SelectFirst(source: seq<Message>, i: nat, maxChars: int)
    requires Selecting([], source, i, 0, maxChars) && i < |source| && maxChars > 64
    ensures var b := Bounded(source[i], maxChars);
            Selecting([b], source, i + 1, Min(MessageSize(b), maxChars), maxChars)
  {
    hide InOrder, ClipOf, Bounded, Fits, MessageSize, Total;
    var b := Bounded(source[i], maxChars);
    assert i == 0;
    if Fits(source, maxChars) {
      FitsStep(source, i, maxChars);
      NoTotal(source);
      assert source[..0] + [source[0]] == [source[0]];
    }
    PickNext([], source, i, b);
    assert [] + [b] == [b];
    TotalOne(b);
  }

  /** A later message is taken when what remains has room for it. */
  lemma SelectTaken(kept: seq<Message>, source: seq<Message>, i: nat, used: int, maxChars: int)
    requires Selecting(kept, source, i, used, maxChars) && i < |source| && kept != [] && maxChars - used > 64
    requires MessageSize(Bounded(source[i], maxChars - used)) <= maxChars - used
    ensures var b := Bounded(source[i], maxChars - used);
            Selecting(kept + [b], source, i + 1, used + MessageSize(b), maxChars)
  {
    hide InOrder, ClipOf, Bounded, Fits, MessageSize, Total;
    var b := Bounded(source[i], maxChars - used);
    if Fits(source, maxChars) {
      FitsStep(source, i, maxChars);
    }
    PickNext(kept, source, i, b);
    TotalMore(kept, b);
    assert (kept + [b])[0] == kept[0];
  }

  lemma NoTotal(s: seq<Message>)
    ensures Total(s[..0]) == 0 && s[..0] == []
  {
  }

  lemma TotalMore(s: seq<Message>, m: Message)
    ensures Total(s + [m]) == Total(s) + MessageSize(m)
  {
    hide MessageSize;
    assert (s + [m])[..|s|] == s;
  }

  lemma TotalOne(m: Message)
    ensures Total([m]) == MessageSize(m)
  {
    hide MessageSize;
    assert [m][..0] == [];
  }

  lemma SelectStep(kept: seq<Message>, source: seq<Message>, i: nat, used: int, maxChars: int)
    requires Selecting(kept, source, i, used, maxChars) && i < |source| && maxChars - used > 64
    ensures var b := Bounded(source[i], maxChars - used);
            var size := MessageSize(b);
            if size > maxChars - used && kept != [] then Selecting(kept, source, i + 1, used, maxChars)
            else Selecting(kept + [b], source, i + 1, used + Min(size, maxChars - used), maxChars)
  {
    hide Selecting, InOrder, Bounded, MessageSize;
    var b := Bounded(source[i], maxChars - used);
    if kept == [] {
      NothingUsed(source, i, used, maxChars);
      SelectFirst(source, i, maxChars);
      assert [] + [b] == [b];
    } else if MessageSize(b) > maxChars - used {
      SelectDropped(kept, source, i, used, maxChars);
    } else {
      SelectTaken(kept, source, i, used, maxChars);
    }
  }

  lemma NothingUsed(source: seq<Message>, i: nat, used: int, maxChars: int)
    requires Selecting([], source, i, used, maxChars)
    ensures used == 0
  {
    hide InOrder;
  }

  lemma SelectionDone(kept: seq<Message>, source: seq<Message>, i: nat, used: int, maxChars: int)
    requires Selecting(kept, source, i, used, maxChars)
    requires i == |source| || (maxChars - used <= 64 && (maxChars > 64 && source != [] ==> i > 0))
    ensures Selected(kept, source, maxChars)
  {
    hide InOrder, ClipOf;
    PickNone(kept, source, i, |source|);
    assert source[..|source|] == source;
    if Fits(source, maxChars) {
      TotalPrefix(source, i);
    }
    if kept != [] && MessageSize(kept[0]) > maxChars {
      assert kept[..0] == [] && Total(kept) == MessageSize(kept[0]);
    }
  }

  method SelectMessages(messages: seq<Message>, maxChars: int, direction: Direction) returns (r: seq<Message>)
    ensures direction == Head ==> Selected(r, messages, maxChars)
    ensures direction == Tail ==> Selected(Reverse(r), Reverse(messages), maxChars)
    ensures InOrder(r, messages)
  {
    hide Selected, Selecting, InOrder, Bounded, MessageSize, Reverse, ClipOf;
    NothingSelected(messages, maxChars);
    NothingSelected(Reverse(messages), maxChars);
    if maxChars <= 0 || messages == [] {
      r := [];
      ReverseTwice(r);
      ReverseTwice(messages);
      SelectedOfNone(messages, maxChars);
      SelectedOfNone(Reverse(messages), maxChars);
      SelectedInOrder([], messages, maxChars);
      return;
    }
    var source := if direction == Head then messages else Reverse(messages);
    var kept: seq<Message>, used, i := [], 0, 0;
    while i < |source|
      invariant i <= |source|
      invariant Selecting(kept, source, i, used, maxChars)
      invariant i > 0 || used == 0
    {
      var remaining := maxChars - used;
      if remaining <= 64 {
        break;
      }
      SelectStep(kept, source, i, used, maxChars);
      var bounded := Bounded(source[i], remaining);
      var size := MessageSize(bounded);
      i := i + 1;
      if size > remaining && |kept| > 0 {
        continue;
      }
      kept := kept + [bounded];
      used := used + Min(size, remaining);
    }
    SelectionDone(kept, source, i, used, maxChars);
    SelectedInOrder(kept, source, maxChars);
    r := if direction == Head then kept else Reverse(kept);
    ReverseInOrder(kept, source);
    ReverseTwice(kept);
    ReverseTwice(messages);
  }

  lemma NothingSelected(source: seq<Message>, maxChars: int)
    ensures Selecting([], source, 0, 0, maxChars)
  {
    assert Picks([], source[..0], []);
  }

  lemma SelectedOfNone(source: seq<Message>, maxChars: int)
    requires maxChars <= 0 || source == []
    ensures Selected([], source, maxChars)
  {
    assert Picks([], source, []);
  }

  lemma SelectedInOrder(kept: seq<Message>, source: seq<Message>, maxChars: int)
    requires Selected(kept, source, maxChars)
    ensures InOrder(kept, source)
  {
    hide InOrder;
  }

  /** Selecting from the tail keeps the last message, and what it keeps totals no more; nothing is
      dropped or clipped when everything fits. */
  lemma SelectedFromTail(r: seq<Message>, messages: seq<Message>, maxChars: int)
    requires Selected(Reverse(r), Reverse(messages), maxChars) && messages != [] && maxChars > 64
    ensures r != [] && ClipOf(r[|r| - 1], messages[|messages| - 1])
    ensures Total(r) <= maxChars + LengthOf(r[|r| - 1].name) + LengthOf(r[|r| - 1].toolCallId) + 31
    ensures MessageSize(r[|r| - 1]) <= maxChars ==> Total(r) <= maxChars
    ensures InOrder(r, messages)
    ensures Fits(Reverse(messages), maxChars) ==> r == messages
  {
    hide InOrder, ClipOf, MessageSize, Reverse, Total, Fits;
    TotalReverse(r);
    ReverseInOrder(Reverse(r), Reverse(messages));
    ReverseTwice(r);
    ReverseTwice(messages);
  }
}
