/**
 Removing terminal commands from untrusted text: the filter that sees a child's output in arbitrary
 chunks, and the one that sees a whole message. `hidden` is the set of control, format and surrogate
 characters (Unicode categories Cc, Cf and Cs).
 */
module TerminalFilter {
  type Code = c: int | 0 <= c < 0x11_0000

  type Text = seq<Code>

  type Hidden = Code -> bool

  const BEL: Code := 0x07
  const HT: Code := 0x09
  const LF: Code := 0x0A
  const CR: Code := 0x0D
  const ESC: Code := 0x1B
  const SP: Code := 0x20
  const LEFT_BRACKET: Code := 0x5B
  const BACKSLASH: Code := 0x5C
  const ST: Code := 0x9C
  const CSI: Code := 0x9B

  predicate OpensString(c: Code) { c == 0x5D || c == 0x50 || c == 0x58 || c == 0x5E || c == 0x5F }

  predicate OpensStringC1(c: Code) { c == 0x90 || c == 0x98 || c == 0x9D || c == 0x9E || c == 0x9F }

  predicate EndsCsi(c: Code) { 0x40 <= c <= 0x7E }

  // ---------------------------------------------------------------- the streaming filter

  datatype FilterState = InText | InEscape | InCsi | InString | InStringEscape

  function Next(state: FilterState, c: Code): FilterState {
    match state
    case InEscape => if c == LEFT_BRACKET then InCsi else if OpensString(c) then InString else InText
    case InCsi => if EndsCsi(c) then InText else InCsi
    case InString => if c == BEL || c == ST then InText else if c == ESC then InStringEscape else InString
    case InStringEscape => if c == BACKSLASH then InText else InString
    case InText => if c == ESC then InEscape else if c == CSI then InCsi else if OpensStringC1(c)
      then InString else InText
  }

  function Shown(hidden: Hidden, state: FilterState, c: Code): Text {
    if state != InText || Next(InText, c) != InText then []
    else if c == CR || c == LF then [LF]
    else if c == HT then [SP, SP, SP, SP]
    else if hidden(c) then [] else [c]
  }

  function StateAfter(state: FilterState, text: Text): FilterState
    decreases |text|
  {
    if text == [] then state else StateAfter(Next(state, text[0]), text[1..])
  }

  function Filtered(hidden: Hidden, state: FilterState, text: Text): Text
    decreases |text|
  {
    if text == [] then [] else Shown(hidden, state, text[0]) + Filtered(hidden, Next(state, text[0]), text[1..])
  }

  class ChildTextFilter {
    const hidden: Hidden
    var state: FilterState

    constructor (hidden: Hidden)
      ensures this.hidden == hidden && state == InText
    {
      this.hidden := hidden;
      state := InText;
    }

    /** One character: move on, and say what it shows; never more than a line end, spaces or an unhidden character. */
    method Take(c: Code) returns (shown: Text)
      modifies this
      ensures shown == Shown(hidden, old(state), c) && state == Next(old(state), c)
      ensures forall x | x in shown :: x == LF || x == SP || (x == c && !hidden(x))
    {
      shown := [];
      if state == InEscape {
        state := if c == LEFT_BRACKET then InCsi else if OpensString(c) then InString else InText;
      } else if state == InCsi {
        if EndsCsi(c) { state := InText; }
      } else if state == InString {
        if c == BEL || c == ST { state := InText; } else if c == ESC { state := InStringEscape; }
      } else if state == InStringEscape {
        state := if c == BACKSLASH then InText else InString;
      } else if c == ESC {
        state := InEscape;
      } else if c == CSI {
        state := InCsi;
      } else if OpensStringC1(c) {
        state := InString;
      } else if c == CR || c == LF {
        shown := [LF];
      } else if c == HT {
        shown := [SP, SP, SP, SP];
      } else if !hidden(c) {
        shown := [c];
      }
    }

    method Feed(text: Text) returns (visible: Text)
      modifies this
      ensures visible == Filtered(hidden, old(state), text)
      ensures state == StateAfter(old(state), text)
    {
      hide Shown, Next;
      visible := [];
      assert text[0..] == text;
      for i := 0 to |text|
        invariant StateAfter(old(state), text) == StateAfter(state, text[i..])
        invariant Filtered(hidden, old(state), text) == visible + Filtered(hidden, state, text[i..])
      {
        assert text[i..][0] == text[i] && text[i..][1..] == text[i + 1..];
        ghost var before := state;
        var shown := Take(text[i]);
        Regrouped(visible, shown, Filtered(hidden, state, text[i + 1..]));
        visible := visible + shown;
      }
    }
  }

  lemma Regrouped(a: Text, b: Text, c: Text)
    ensures a + (b + c) == (a + b) + c
  {
  }

  /** Feeding `a` and then `b` is feeding `a + b`. */
  lemma {:induction false} FeedingIsChunkIndependent(hidden: Hidden, state: FilterState, a: Text, b: Text)
    ensures StateAfter(state, a + b) == StateAfter(StateAfter(state, a), b)
    ensures Filtered(hidden, state, a + b) == Filtered(hidden, state, a) + Filtered(hidden, StateAfter(state, a), b)
    decreases |a|
  {
    if a == [] {
      assert a + b == b;
    } else {
      assert (a + b)[1..] == a[1..] + b;
      FeedingIsChunkIndependent(hidden, Next(state, a[0]), a[1..], b);
    }
  }

  function Concat(chunks: seq<Text>): Text { if chunks == [] then [] else chunks[0] + Concat(chunks[1..]) }

  /** What a fresh filter shows for a list of chunks, one call per chunk. */
  function ShownForChunks(hidden: Hidden, state: FilterState, chunks: seq<Text>): Text
    decreases |chunks|
  {
    if chunks == [] then []
    else Filtered(hidden, state, chunks[0]) + ShownForChunks(hidden, StateAfter(state, chunks[0]), chunks[1..])
  }

  /** However the output is cut into reads, the same text is shown. */
  lemma {:induction false} EveryChunkingShowsTheSame(hidden: Hidden, state: FilterState, chunks: seq<Text>)
    ensures ShownForChunks(hidden, state, chunks) == Filtered(hidden, state, Concat(chunks))
    decreases |chunks|
  {
    if chunks != [] {
      EveryChunkingShowsTheSame(hidden, StateAfter(state, chunks[0]), chunks[1..]);
      FeedingIsChunkIndependent(hidden, state, chunks[0], Concat(chunks[1..]));
    }
  }

  /** Only line ends, the spaces of a tab, and characters that are not hidden reach the terminal. */
  lemma {:induction false} OnlyHarmlessTextIsShown(hidden: Hidden, state: FilterState, text: Text)
    ensures forall i | 0 <= i < |Filtered(hidden, state, text)| ::
              Filtered(hidden, state, text)[i] in {LF, SP} || !hidden(Filtered(hidden, state, text)[i])
    decreases |text|
  {
    if text != [] { OnlyHarmlessTextIsShown(hidden, Next(state, text[0]), text[1..]); }
  }

  // ---------------------------------------------------------------- the batch form

  /** What follows the control string `text` starts in: behind BEL or ESC backslash, or nothing. */
  function AfterString(text: Text): (rest: Text)
    ensures |rest| <= |text|
    decreases |text|
  {
    if text == [] then []
    else if text[0] == BEL then text[1..]
    else if text[0] == ESC && |text| > 1 && text[1] == BACKSLASH then text[2..]
    else AfterString(text[1..])
  }

  function AfterCsi(text: Text): (rest: Text)
    ensures |rest| <= |text|
    decreases |text|
  {
    if text == [] then [] else if EndsCsi(text[0]) then text[1..] else AfterCsi(text[1..])
  }

  function Stripped(text: Text): Text
    decreases |text|
  {
    if text == [] then []
    else if text[0] != ESC then [text[0]] + Stripped(text[1..])
    else if |text| == 1 then []
    else if text[1] == LEFT_BRACKET then Stripped(AfterCsi(text[2..]))
    else if OpensString(text[1]) then Stripped(AfterString(text[2..]))
    else Stripped(text[2..])
  }

  method SkipControlString(text: Text, start: nat) returns (index: nat)
    requires start <= |text|
    ensures start <= index <= |text| && text[index..] == AfterString(text[start..])
  {
    index := start;
    while index < |text|
      invariant start <= index <= |text|
      invariant AfterString(text[index..]) == AfterString(text[start..])
    {
      assert text[index..][0] == text[index] && text[index..][1..] == text[index + 1..];
      if text[index] == BEL { return index + 1; }
      if text[index] == ESC && index + 1 < |text| && text[index + 1] == BACKSLASH {
        assert text[index..][2..] == text[index + 2..];
        return index + 2;
      }
      index := index + 1;
    }
  }

  method SkipCsi(text: Text, start: nat) returns (index: nat)
    requires start <= |text|
    ensures start <= index <= |text| && text[index..] == AfterCsi(text[start..])
  {
    index := start;
    while index < |text|
      invariant start <= index <= |text|
      invariant AfterCsi(text[index..]) == AfterCsi(text[start..])
    {
      assert text[index..][0] == text[index] && text[index..][1..] == text[index + 1..];
      index := index + 1;
      if EndsCsi(text[index - 1]) { return; }
    }
  }

  method StripTerminalSequences(text: Text) returns (result: Text)
    ensures result == Stripped(text)
  {
    result := [];
    var index: nat := 0;
    assert text[0..] == text;
    while index < |text|
      invariant index <= |text|
      invariant Stripped(text) == result + Stripped(text[index..])
    {
      ghost var rest := text[index..];
      assert rest[0] == text[index] && rest[1..] == text[index + 1..];
      if text[index] != ESC {
        Regrouped(result, [text[index]], Stripped(rest[1..]));
        result := result + [text[index]];
        index := index + 1;
        continue;
      }
      index := index + 1;
      if index >= |text| { break; }
      var introducer := text[index];
      assert rest[1] == introducer && rest[2..] == text[index + 1..];
      index := index + 1;
      if introducer == LEFT_BRACKET {
        index := SkipCsi(text, index);
      } else if OpensString(introducer) {
        index := SkipControlString(text, index);
      }
    }
  }

  function VisibleOf(hidden: Hidden, c: Code): Text {
    if c == LF then [LF] else if c == HT then [SP, SP, SP, SP] else if c == CR || hidden(c) then [] else [c]
  }

  function VisibleText(hidden: Hidden, text: Text): Text {
    if text == [] then [] else VisibleOf(hidden, text[0]) + VisibleText(hidden, text[1..])
  }

  method SanitizeVisibleText(hidden: Hidden, text: Text) returns (result: Text)
    ensures result == VisibleText(hidden, Stripped(text))
  {
    hide Stripped;
    var stripped := StripTerminalSequences(text);
    result := [];
    assert stripped[0..] == stripped;
    for i := 0 to |stripped|
      invariant VisibleText(hidden, stripped) == result + VisibleText(hidden, stripped[i..])
    {
      var c := stripped[i];
      assert stripped[i..][0] == c && stripped[i..][1..] == stripped[i + 1..];
      var shown: Text := [];
      if c == LF {
        shown := [c];
      } else if c == HT {
        shown := [SP, SP, SP, SP];
      } else if c != CR && !hidden(c) {
        shown := [c];
      }
      Regrouped(result, shown, VisibleText(hidden, stripped[i + 1..]));
      result := result + shown;
    }
  }

  // ---------------------------------------------------------------- where the two agree

  /** The stream never meets a C1 introducer as text, ST in a string, or ESC or BEL behind an ESC in a string. */
  predicate Undisputed(state: FilterState, text: Text)
    decreases |text|
  {
    text != [] ==>
      && (state == InText ==> text[0] != CSI && !OpensStringC1(text[0]))
      && (state == InString ==> text[0] != ST)
      && (state == InStringEscape ==> text[0] != ESC && text[0] != BEL)
      && Undisputed(Next(state, text[0]), text[1..])
  }

  /** The carriage returns the stream meets as text, outside every command. */
  function Returns(state: FilterState, text: Text): nat
    decreases |text|
  {
    if text == [] then 0
    else (if state == InText && text[0] == CR then 1 else 0) + Returns(Next(state, text[0]), text[1..])
  }

  lemma {:induction false} ReturnsAreMetAsText(state: FilterState, text: Text)
    ensures Returns(state, text) == 0 <==>
              forall i | 0 <= i < |text| && text[i] == CR :: StateAfter(state, text[..i]) != InText
    decreases |text|
  {
    if text != [] {
      var later, rest := Next(state, text[0]), text[1..];
      ReturnsAreMetAsText(later, rest);
      forall i | 0 <= i < |rest|
        ensures StateAfter(state, text[..i + 1]) == StateAfter(later, rest[..i]) && text[i + 1] == rest[i]
      {
        assert text[..i + 1][0] == text[0] && text[..i + 1][1..] == rest[..i];
      }
      assert StateAfter(state, text[..0]) == state;
      if Returns(state, text) == 0 {
        forall i | 0 <= i < |text| && text[i] == CR ensures StateAfter(state, text[..i]) != InText {
          if i > 0 { assert rest[i - 1] == CR && text[..i - 1 + 1] == text[..i]; }
        }
      } else if Returns(later, rest) != 0 {
        var k :| 0 <= k < |rest| && rest[k] == CR && StateAfter(later, rest[..k]) == InText;
        assert text[k + 1] == CR && StateAfter(state, text[..k + 1]) == InText;
      }
    }
  }

  predicate NoC1(text: Text) { forall i | 0 <= i < |text| :: !(0x80 <= text[i] <= 0x9F) }

  predicate NoDoubleEscape(text: Text) {
    forall i | 0 <= i < |text| - 1 && text[i] == ESC :: text[i + 1] != ESC && text[i + 1] != BEL
  }

  /** Text without C1 controls and without ESC before ESC or BEL is undisputed. */
  lemma {:induction false} OrdinaryTextIsUndisputed(state: FilterState, text: Text)
    requires NoC1(text) && NoDoubleEscape(text)
    requires state == InStringEscape && text != [] ==> text[0] != ESC && text[0] != BEL
    ensures Undisputed(state, text)
    decreases |text|
  {
    if text != [] {
      assert NoDoubleEscape(text[1..]) by {
        forall i | 0 <= i < |text| - 2 && text[1..][i] == ESC
          ensures text[1..][i + 1] != ESC && text[1..][i + 1] != BEL
        {
          assert text[i + 1] == ESC;
        }
      }
      OrdinaryTextIsUndisputed(Next(state, text[0]), text[1..]);
    }
  }

  lemma {:induction false} CsiAgrees(hidden: Hidden, text: Text)
    requires Undisputed(InCsi, text)
    ensures Undisputed(InText, AfterCsi(text))
            && Filtered(hidden, InCsi, text) == Filtered(hidden, InText, AfterCsi(text))
    ensures Returns(InCsi, text) == Returns(InText, AfterCsi(text))
    decreases |text|
  {
    if text != [] && !EndsCsi(text[0]) { CsiAgrees(hidden, text[1..]); }
  }

  lemma {:induction false} StringAgrees(hidden: Hidden, text: Text)
    requires Undisputed(InString, text)
    ensures Undisputed(InText, AfterString(text))
            && Filtered(hidden, InString, text) == Filtered(hidden, InText, AfterString(text))
    ensures Returns(InString, text) == Returns(InText, AfterString(text))
    decreases |text|
  {
    if text == [] || text[0] == BEL {
    } else if text[0] != ESC {
      StringAgrees(hidden, text[1..]);
    } else if |text| > 1 {
      assert text[1..][0] == text[1] && text[1..][1..] == text[2..];
      if text[1] != BACKSLASH { StringAgrees(hidden, text[2..]); }
    }
  }

  function ReturnsIn(text: Text): nat {
    if text == [] then 0 else (if text[0] == CR then 1 else 0) + ReturnsIn(text[1..])
  }

  /** The batch form, except that a carriage return ends a line. */
  function StreamText(hidden: Hidden, text: Text): Text {
    if text == [] then []
    else (if text[0] == CR then [LF] else VisibleOf(hidden, text[0])) + StreamText(hidden, text[1..])
  }

  lemma TextStep(hidden: Hidden, c: Code, rest: Text)
    ensures StreamText(hidden, [c] + rest)
              == (if c == CR then [LF] else VisibleOf(hidden, c)) + StreamText(hidden, rest)
    ensures ReturnsIn([c] + rest) == (if c == CR then 1 else 0) + ReturnsIn(rest)
  {
    assert ([c] + rest)[1..] == rest;
  }

  /** On undisputed text the stream is the stripped text with every carriage return shown as a line end. */
  lemma {:induction false} StreamIsStripped(hidden: Hidden, text: Text)
    requires Undisputed(InText, text)
    ensures Filtered(hidden, InText, text) == StreamText(hidden, Stripped(text))
            && Returns(InText, text) == ReturnsIn(Stripped(text))
    decreases |text|
  {
    if text == [] {
    } else if text[0] != ESC {
      StreamIsStripped(hidden, text[1..]);
      TextStep(hidden, text[0], Stripped(text[1..]));
    } else if |text| > 1 {
      var rest := text[2..];
      assert text[1..][0] == text[1] && text[1..][1..] == rest;
      if text[1] == LEFT_BRACKET {
        CsiAgrees(hidden, rest);
        StreamIsStripped(hidden, AfterCsi(rest));
      } else if OpensString(text[1]) {
        StringAgrees(hidden, rest);
        StreamIsStripped(hidden, AfterString(rest));
      } else {
        StreamIsStripped(hidden, rest);
      }
    }
  }

  /** Each carriage return makes the stream longer than the batch form by one line end. */
  lemma {:induction false} ReturnsAreTheDifference(hidden: Hidden, text: Text)
    ensures |StreamText(hidden, text)| == |VisibleText(hidden, text)| + ReturnsIn(text)
    ensures ReturnsIn(text) == 0 ==> StreamText(hidden, text) == VisibleText(hidden, text)
  {
    if text != [] { ReturnsAreTheDifference(hidden, text[1..]); }
  }

  /** On undisputed text the stream shows what the batch form shows exactly when it meets no carriage return as text. */
  lemma StreamEqualsBatch(hidden: Hidden, text: Text)
    requires Undisputed(InText, text)
    ensures Filtered(hidden, InText, text) == VisibleText(hidden, Stripped(text)) <==>
            forall i | 0 <= i < |text| && text[i] == CR :: StateAfter(InText, text[..i]) != InText
    ensures |Filtered(hidden, InText, text)| == |VisibleText(hidden, Stripped(text))| + Returns(InText, text)
  {
    hide StreamText, Filtered, VisibleText, Stripped, Returns, ReturnsIn, Undisputed, StateAfter;
    StreamIsStripped(hidden, text);
    ReturnsAreTheDifference(hidden, Stripped(text));
    ReturnsAreMetAsText(InText, text);
  }

  /** The same for every text without C1 controls and without ESC before ESC or BEL. */
  lemma OrdinaryTextDiffersByItsReturns(hidden: Hidden, text: Text)
    requires NoC1(text) && NoDoubleEscape(text)
    ensures Filtered(hidden, InText, text) == VisibleText(hidden, Stripped(text)) <==>
            forall i | 0 <= i < |text| && text[i] == CR :: StateAfter(InText, text[..i]) != InText
  {
    OrdinaryTextIsUndisputed(InText, text);
    StreamEqualsBatch(hidden, text);
  }

  lemma FilterStep(hidden: Hidden, state: FilterState, c: Code, rest: Text)
    ensures Filtered(hidden, state, [c] + rest) == Shown(hidden, state, c) + Filtered(hidden, Next(state, c), rest)
  {
    assert ([c] + rest)[1..] == rest;
  }

  lemma StringStep(c: Code, rest: Text)
    requires c != BEL && !(c == ESC && rest != [] && rest[0] == BACKSLASH)
    ensures AfterString([c] + rest) == AfterString(rest)
  {
    assert ([c] + rest)[1..] == rest;
  }

  // ---------------------------------------------------------------- the two grammars, code by code

  /** What stands for one character outside every command. */
  lemma CharacterIsShownAs(hidden: Hidden, c: Code, rest: Text)
    ensures c !in {0x1B, 0x9B, 0x90, 0x98, 0x9D, 0x9E, 0x9F} ==>
              Filtered(hidden, InText, [c] + rest)
                == (if c == 0x0A || c == 0x0D then [0x0A] else if c == 0x09 then [0x20, 0x20, 0x20, 0x20]
                    else if hidden(c) then [] else [c]) + Filtered(hidden, InText, rest)
    ensures c != 0x1B ==>
              VisibleText(hidden, Stripped([c] + rest))
                == (if c == 0x0A then [0x0A] else if c == 0x09 then [0x20, 0x20, 0x20, 0x20]
                    else if c == 0x0D || hidden(c) then [] else [c]) + VisibleText(hidden, Stripped(rest))
  {
    FilterStep(hidden, InText, c, rest);
    if c != 0x1B {
      assert ([c] + rest)[1..] == rest;
      assert Stripped([c] + rest) == [c] + Stripped(rest);
      assert ([c] + Stripped(rest))[1..] == Stripped(rest);
    }
  }

  lemma {:induction false} CsiIsSkipped(hidden: Hidden, body: Text, end: Code, rest: Text)
    requires forall i | 0 <= i < |body| :: !(0x40 <= body[i] <= 0x7E)
    requires 0x40 <= end <= 0x7E
    ensures Filtered(hidden, InCsi, body + ([end] + rest)) == Filtered(hidden, InText, rest)
    ensures AfterCsi(body + ([end] + rest)) == rest
  {
    if body == [] {
      assert body + ([end] + rest) == [end] + rest && ([end] + rest)[1..] == rest;
    } else {
      assert (body + ([end] + rest))[1..] == body[1..] + ([end] + rest);
      CsiIsSkipped(hidden, body[1..], end, rest);
    }
  }

  /** ESC `[`, or in the stream the C1 code for it, hides everything up to the first final byte, and nothing more. */
  lemma CsiSequenceIsRemoved(hidden: Hidden, body: Text, end: Code, rest: Text)
    requires forall i | 0 <= i < |body| :: !(0x40 <= body[i] <= 0x7E)
    requires 0x40 <= end <= 0x7E
    ensures Filtered(hidden, InText, [0x1B] + ([0x5B] + (body + ([end] + rest)))) == Filtered(hidden, InText, rest)
    ensures Filtered(hidden, InText, [0x9B] + (body + ([end] + rest))) == Filtered(hidden, InText, rest)
    ensures Stripped([0x1B] + ([0x5B] + (body + ([end] + rest)))) == Stripped(rest)
  {
    hide Filtered, Stripped, AfterCsi;
    var tail := body + ([end] + rest);
    CsiIsSkipped(hidden, body, end, rest);
    FilterStep(hidden, InText, 0x1B, [0x5B] + tail);
    FilterStep(hidden, InEscape, 0x5B, tail);
    FilterStep(hidden, InText, 0x9B, tail);
    StripStep(0x5B, tail);
  }

  /** What follows ESC and one more character is stripped of the sequence they start. */
  lemma StripStep(c: Code, tail: Text)
    ensures Stripped([ESC] + ([c] + tail)) ==
            if c == LEFT_BRACKET then Stripped(AfterCsi(tail))
            else if OpensString(c) then Stripped(AfterString(tail)) else Stripped(tail)
  {
    hide AfterCsi, AfterString;
    var text := [ESC] + ([c] + tail);
    assert text[0] == ESC && text[1] == c && text[2..] == tail;
  }

  /** `end` ends a control string: BEL, ESC backslash, or, in the stream only, ST. */
  predicate EndsString(end: Text, streaming: bool) {
    end == [0x07] || end == [0x1B, 0x5C] || (streaming && end == [0x9C])
  }

  lemma {:induction false} StringIsSkipped(hidden: Hidden, body: Text, end: Text, rest: Text)
    requires forall i | 0 <= i < |body| :: body[i] != 0x07 && body[i] != 0x1B
    ensures EndsString(end, true) && (forall i | 0 <= i < |body| :: body[i] != 0x9C) ==>
              Filtered(hidden, InString, body + (end + rest)) == Filtered(hidden, InText, rest)
    ensures EndsString(end, false) ==> AfterString(body + (end + rest)) == rest
  {
    if body == [] {
      assert body + (end + rest) == end + rest;
      if end == [0x1B, 0x5C] {
        assert end + rest == [0x1B] + ([0x5C] + rest);
        FilterStep(hidden, InString, 0x1B, [0x5C] + rest);
        FilterStep(hidden, InStringEscape, 0x5C, rest);
        assert (end + rest)[2..] == rest;
      } else if EndsString(end, true) {
        FilterStep(hidden, InString, end[0], rest);
        assert end + rest == [end[0]] + rest && (end + rest)[1..] == rest;
      }
    } else {
      assert (body + (end + rest))[1..] == body[1..] + (end + rest);
      StringIsSkipped(hidden, body[1..], end, rest);
    }
  }

  /** ESC and one of `] P X ^ _`, or in the stream its C1 code, hides everything up to the end of the string. */
  lemma ControlStringIsRemoved(hidden: Hidden, opener: Code, c1: Code, body: Text, end: Text, rest: Text)
    requires opener in {0x5D, 0x50, 0x58, 0x5E, 0x5F} && c1 in {0x90, 0x98, 0x9D, 0x9E, 0x9F}
    requires forall i | 0 <= i < |body| :: body[i] != 0x07 && body[i] != 0x1B
    ensures EndsString(end, true) && (forall i | 0 <= i < |body| :: body[i] != 0x9C) ==>
              Filtered(hidden, InText, [0x1B] + ([opener] + (body + (end + rest)))) == Filtered(hidden, InText, rest)
              && Filtered(hidden, InText, [c1] + (body + (end + rest))) == Filtered(hidden, InText, rest)
    ensures EndsString(end, false) ==> Stripped([0x1B] + ([opener] + (body + (end + rest)))) == Stripped(rest)
  {
    hide Filtered, Stripped, AfterString, EndsString;
    var tail := body + (end + rest);
    StringIsSkipped(hidden, body, end, rest);
    FilterStep(hidden, InText, 0x1B, [opener] + tail);
    FilterStep(hidden, InEscape, opener, tail);
    FilterStep(hidden, InText, c1, tail);
    StripStep(opener, tail);
  }

  /** Any other ESC sequence is two characters; in a control string ESC and anything but a backslash belong to it. */
  lemma OtherEscapesAreTwoCharacters(hidden: Hidden, c: Code, rest: Text)
    ensures c !in {0x5B, 0x5D, 0x50, 0x58, 0x5E, 0x5F} ==>
              Filtered(hidden, InText, [0x1B] + ([c] + rest)) == Filtered(hidden, InText, rest)
              && Stripped([0x1B] + ([c] + rest)) == Stripped(rest)
    ensures c != 0x5C ==> Filtered(hidden, InString, [0x1B] + ([c] + rest)) == Filtered(hidden, InString, rest)
  {
    hide Filtered, Stripped;
    FilterStep(hidden, InText, 0x1B, [c] + rest);
    FilterStep(hidden, InEscape, c, rest);
    FilterStep(hidden, InString, 0x1B, [c] + rest);
    FilterStep(hidden, InStringEscape, c, rest);
    StripStep(c, rest);
  }

  // ---------------------------------------------------------------- where the two differ

  /** Behind ESC and a string introducer. */
  lemma InsideString(hidden: Hidden, rest: Text)
    ensures Filtered(hidden, InText, [ESC] + ([0x5D] + rest)) == Filtered(hidden, InString, rest)
    ensures Stripped([ESC] + ([0x5D] + rest)) == Stripped(AfterString(rest))
  {
    FilterStep(hidden, InText, ESC, [0x5D] + rest);
    FilterStep(hidden, InEscape, 0x5D, rest);
    assert ([ESC] + ([0x5D] + rest))[2..] == rest;
  }

  lemma OneShown(hidden: Hidden, x: Code)
    requires x == 0x78 && !hidden(x)
    ensures Filtered(hidden, InText, [x]) == [x] && VisibleText(hidden, Stripped([x])) == [x]
    ensures Filtered(hidden, InString, [x]) == [] && VisibleText(hidden, Stripped([])) == []
  {
    assert [x][1..] == [];
  }

  /** The shortest disagreement: CR ends a line in the stream and disappears from the batch form. */
  lemma CarriageReturnDiffers(hidden: Hidden)
    ensures Filtered(hidden, InText, [CR]) == [LF] && VisibleText(hidden, Stripped([CR])) == []
  {
    assert [CR][1..] == [];
  }

  /** A C1 introducer hides what follows in the stream only. */
  lemma C1IntroducerDiffers(hidden: Hidden, x: Code)
    requires x == 0x78 && !hidden(x)
    ensures Filtered(hidden, InText, [CSI] + [x]) == [] && x in VisibleText(hidden, Stripped([CSI] + [x]))
  {
    FilterStep(hidden, InText, CSI, [x]);
    assert [x][1..] == [];
    assert ([CSI] + [x])[1..] == [x];
    assert [x][1..] == [] && Stripped([]) == [];
    assert Stripped([x]) == [x] + Stripped([x][1..]);
    assert Stripped([CSI] + [x]) == [CSI] + Stripped([x]);
    assert VisibleText(hidden, [CSI] + [x]) == VisibleOf(hidden, CSI) + VisibleText(hidden, [x]);
  }

  /** ST ends a control string in the stream only. */
  lemma StringTerminatorDiffers(hidden: Hidden, x: Code)
    requires x == 0x78 && !hidden(x)
    ensures var text := [ESC] + ([0x5D] + ([ST] + [x]));
              Filtered(hidden, InText, text) == [x] && VisibleText(hidden, Stripped(text)) == []
  {
    InsideString(hidden, [ST] + [x]);
    FilterStep(hidden, InString, ST, [x]);
    OneShown(hidden, x);
    StringStep(ST, [x]);
    assert AfterString([x]) == [];
  }

  /** ESC before BEL, or before ESC and backslash, ends a control string in the batch form only. */
  lemma DoubleEscapeDiffers(hidden: Hidden, x: Code)
    requires x == 0x78 && !hidden(x)
    ensures var text := [ESC] + ([0x5D] + ([ESC] + ([BEL] + [x])));
              Filtered(hidden, InText, text) == [] && VisibleText(hidden, Stripped(text)) == [x]
    ensures var text := [ESC] + ([0x5D] + ([ESC] + ([ESC] + ([BACKSLASH] + [x]))));
            Filtered(hidden, InText, text) == [] && VisibleText(hidden, Stripped(text)) == [x]
  {
    OneShown(hidden, x);
    InsideString(hidden, [ESC] + ([BEL] + [x]));
    FilterStep(hidden, InString, ESC, [BEL] + [x]);
    FilterStep(hidden, InStringEscape, BEL, [x]);
    StringStep(ESC, [BEL] + [x]);
    assert ([BEL] + [x])[1..] == [x];
    var tail := [ESC] + ([BACKSLASH] + [x]);
    InsideString(hidden, [ESC] + tail);
    FilterStep(hidden, InString, ESC, tail);
    FilterStep(hidden, InStringEscape, ESC, [BACKSLASH] + [x]);
    FilterStep(hidden, InString, BACKSLASH, [x]);
    StringStep(ESC, tail);
    assert tail[2..] == [x];
  }
}
