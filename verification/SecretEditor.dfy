/** The masked token prompt: a line editor fed byte by byte from a terminal in raw mode, and what the
    operator sees of it. */
module SecretEditor {
  import opened Basics

  datatype Action = Continue | Done | Cancel

  /** How much of an escape sequence has come: nothing, its ESC, or its introducer too. */
  datatype Escape = NoEscape | SeenEscape | InSequence

  datatype Editor = Editor(buf: seq<byte>, esc: Escape)

  const EMPTY := Editor([], NoEscape)

  datatype Keyed = Keyed(editor: Editor, echo: seq<byte>, action: Action)

  const ESC: byte := 0x1B
  const BACKSPACE: byte := 0x08
  const DELETE: byte := 0x7F
  const CTRL_C: byte := 0x03
  const CTRL_U: byte := 0x15
  const CR: byte := 13
  const LF: byte := 10
  const SPACE: byte := 0x20
  const STAR: byte := 0x2A

  const RUBOUT: seq<byte> := [BACKSPACE, SPACE, BACKSPACE]

  function Rubouts(n: nat): seq<byte> {
    if n == 0 then [] else Rubouts(n - 1) + RUBOUT
  }

  /** What one byte does. */
  function Key(e: Editor, b: byte): Keyed {
    match e.esc
    case SeenEscape => Keyed(e.(esc := if b == 0x5B || b == 0x4F then InSequence else NoEscape), [], Continue)
    case InSequence => Keyed(if 0x40 <= b <= 0x7E then e.(esc := NoEscape) else e, [], Continue)
    case NoEscape =>
      if b == CR || b == LF then Keyed(e, [CR, LF], Done)
      else if b == CTRL_C then Keyed(e, [CR, LF], Cancel)
      else if b == CTRL_U then Keyed(e.(buf := []), Rubouts(|e.buf|), Continue)
      else if b == DELETE || b == BACKSPACE then
        if e.buf == [] then Keyed(e, [], Continue) else Keyed(e.(buf := e.buf[..|e.buf| - 1]), RUBOUT, Continue)
      else if b == ESC then Keyed(e.(esc := SeenEscape), [], Continue)
      else if b < 0x20 then Keyed(e, [], Continue)
      else Keyed(e.(buf := e.buf + [b]), [STAR], Continue)
  }

  // ---------------------------------------------------------------------------------------------
  // The screen.

  /** One line of a terminal: the cells written so far, and where the next character goes. */
  datatype Screen = Screen(cells: seq<byte>, cursor: nat)

  const BLANK := Screen([], 0)

  /** What a terminal does with an echoed byte on that line. */
  function Shown(s: Screen, b: byte): Screen {
    if b == BACKSPACE then s.(cursor := if s.cursor == 0 then 0 else s.cursor - 1)
    else if b < 0x20 then s
    else if s.cursor < |s.cells| then Screen(s.cells[s.cursor := b], s.cursor + 1)
    else Screen(s.cells + seq(s.cursor - |s.cells|, _ => SPACE) + [b], s.cursor + 1)
  }

  function Replay(s: Screen, echo: seq<byte>): Screen {
    if echo == [] then s else Shown(Replay(s, echo[..|echo| - 1]), echo[|echo| - 1])
  }

  /** `n` stars from the start of the line, nothing else, and the cursor right after them. */
  ghost predicate ShowsStars(s: Screen, n: nat) {
    && s.cursor == n && n <= |s.cells|
    && (forall i :: 0 <= i < n ==> s.cells[i] == STAR)
    && (forall i :: n <= i < |s.cells| ==> s.cells[i] == SPACE)
  }

  lemma {:induction false} ReplayConcat(s: Screen, a: seq<byte>, b: seq<byte>)
    ensures Replay(s, a + b) == Replay(Replay(s, a), b)
  {
    if b == [] {
      assert a + b == a;
    } else {
      assert (a + b)[..|a + b| - 1] == a + b[..|b| - 1];
      ReplayConcat(s, a, b[..|b| - 1]);
    }
  }

  lemma StarShown(s: Screen, n: nat)
    requires ShowsStars(s, n)
    ensures ShowsStars(Replay(s, [STAR]), n + 1)
  {
    assert Replay(s, [STAR][..0]) == s;
  }

  lemma RuboutShown(s: Screen, n: nat)
    requires ShowsStars(s, n) && n > 0
    ensures ShowsStars(Replay(s, RUBOUT), n - 1)
  {
    var back := Shown(s, BACKSPACE);
    var cleared := Shown(back, SPACE);
    assert RUBOUT[..2] == [BACKSPACE, SPACE] && [BACKSPACE, SPACE][..1] == [BACKSPACE] && [BACKSPACE][..0] == [];
    assert Replay(s, [BACKSPACE]) == back;
    assert Replay(s, [BACKSPACE, SPACE]) == cleared;
    assert Replay(s, RUBOUT) == Shown(cleared, BACKSPACE);
  }

  lemma {:induction false} RuboutsShown(s: Screen, n: nat, left: nat)
    requires ShowsStars(s, n) && left <= n
    ensures ShowsStars(Replay(s, Rubouts(left)), n - left)
  {
    if left > 0 {
      RuboutsShown(s, n, left - 1);
      ReplayConcat(s, Rubouts(left - 1), RUBOUT);
      RuboutShown(Replay(s, Rubouts(left - 1)), n - left + 1);
    }
  }

  lemma KeyShown(e: Editor, b: byte, s: Screen)
    requires ShowsStars(s, |e.buf|) && Key(e, b).action.Continue?
    ensures ShowsStars(Replay(s, Key(e, b).echo), |Key(e, b).editor.buf|)
  {
    var k := Key(e, b);
    if k.echo == RUBOUT && |k.editor.buf| == |e.buf| - 1 {
      RuboutShown(s, |e.buf|);
    } else if k.editor.buf == [] && e.esc.NoEscape? && b == CTRL_U {
      RuboutsShown(s, |e.buf|, |e.buf|);
    } else if k.echo == [STAR] {
      StarShown(s, |e.buf|);
    }
  }

  // ---------------------------------------------------------------------------------------------
  // A whole prompt.

  /** The prompt after some bytes: it takes no more once a key has ended it. */
  datatype Prompt = Prompt(editor: Editor, echoed: seq<byte>, ended: Action)

  const OPENED := Prompt(EMPTY, [], Continue)

  function Typed(bytes: seq<byte>): Prompt {
    if bytes == [] then OPENED
    else
      var p := Typed(bytes[..|bytes| - 1]);
      if !p.ended.Continue? then p
      else var k := Key(p.editor, bytes[|bytes| - 1]); Prompt(k.editor, p.echoed + k.echo, k.action)
  }

  /** Whatever was typed, the line shows exactly one star for each byte in the buffer. */
  lemma {:induction false} ScreenIsFaithful(bytes: seq<byte>)
    requires Typed(bytes).ended.Continue?
    ensures ShowsStars(Replay(BLANK, Typed(bytes).echoed), |Typed(bytes).editor.buf|)
  {
    if bytes != [] {
      var before, last := bytes[..|bytes| - 1], bytes[|bytes| - 1];
      ScreenIsFaithful(before);
      var p := Typed(before);
      ReplayConcat(BLANK, p.echoed, Key(p.editor, last).echo);
      KeyShown(p.editor, last, Replay(BLANK, p.echoed));
    }
  }

  // ---------------------------------------------------------------------------------------------
  // Control sequences, ECMA-48 section 5.4.

  predicate IsParameter(b: byte) {
    0x30 <= b <= 0x3F
  }

  predicate IsIntermediate(b: byte) {
    0x20 <= b <= 0x2F
  }

  predicate IsFinal(b: byte) {
    0x40 <= b <= 0x7E
  }

  /** The control sequence introducer, in a 7-bit or an 8-bit code. */
  datatype Introducer = SevenBit | EightBit

  function Introduce(i: Introducer): seq<byte> {
    if i.SevenBit? then [ESC, 0x5B] else [0x9B]
  }

  predicate IsBody(params: seq<byte>, inters: seq<byte>, final: byte) {
    && (forall i :: 0 <= i < |params| ==> IsParameter(params[i]))
    && (forall i :: 0 <= i < |inters| ==> IsIntermediate(inters[i]))
    && IsFinal(final)
  }

  function KeyAll(e: Editor, bytes: seq<byte>): (r: (Editor, seq<byte>))
  {
    if bytes == [] then (e, [])
    else
      var (before, echo) := KeyAll(e, bytes[..|bytes| - 1]);
      var k := Key(before, bytes[|bytes| - 1]);
      (k.editor, echo + k.echo)
  }

  lemma {:induction false} SequenceSwallows(e: Editor, bytes: seq<byte>)
    requires e.esc.InSequence? && forall i :: 0 <= i < |bytes| ==> IsParameter(bytes[i]) || IsIntermediate(bytes[i])
    ensures KeyAll(e, bytes) == (e, [])
  {
    if bytes != [] {
      var n := |bytes| - 1;
      SequenceSwallows(e, bytes[..n]);
      assert IsParameter(bytes[n]) || IsIntermediate(bytes[n]);
      var nothing: seq<byte> := [];
      assert Key(e, bytes[n]) == Keyed(e, nothing, Continue);
      assert KeyAll(e, bytes) == (e, nothing + nothing) && nothing + nothing == nothing;
    }
  }

  lemma {:induction false} PlainBytesAreTyped(e: Editor, bytes: seq<byte>)
    requires e.esc.NoEscape? && forall i :: 0 <= i < |bytes| ==> bytes[i] >= 0x20 && bytes[i] != DELETE
    ensures KeyAll(e, bytes).0 == e.(buf := e.buf + bytes)
  {
    if bytes == [] {
      assert e.buf + bytes == e.buf;
    } else {
      var n := |bytes| - 1;
      PlainBytesAreTyped(e, bytes[..n]);
      assert e.buf + bytes == e.buf + bytes[..n] + [bytes[n]];
    }
  }

  lemma {:induction false} KeyAllConcat(e: Editor, a: seq<byte>, b: seq<byte>)
    ensures KeyAll(e, a + b).0 == KeyAll(KeyAll(e, a).0, b).0
    ensures KeyAll(e, a + b).1 == KeyAll(e, a).1 + KeyAll(KeyAll(e, a).0, b).1
  {
    if b == [] {
      assert a + b == a;
    } else {
      assert (a + b)[..|a + b| - 1] == a + b[..|b| - 1];
      KeyAllConcat(e, a, b[..|b| - 1]);
    }
  }

  lemma KeyAllOne(e: Editor, b: byte)
    ensures KeyAll(e, [b]).0 == Key(e, b).editor && KeyAll(e, [b]).1 == Key(e, b).echo
  {
    assert KeyAll(e, [b][..0]) == (e, []);
  }

  lemma SevenBitIsSwallowed(e: Editor, params: seq<byte>, inters: seq<byte>, final: byte)
    requires e.esc.NoEscape? && IsBody(params, inters, final)
    ensures KeyAll(e, Introduce(SevenBit) + (params + inters) + [final]) == (e, [])
  {
    var inside := e.(esc := InSequence);
    var intro := Introduce(SevenBit);
    assert intro[..1] == [ESC] && intro[..1][..0] == [];
    assert KeyAll(e, [ESC]).0 == e.(esc := SeenEscape) && KeyAll(e, [ESC]).1 == [] by {
      KeyAllOne(e, ESC);
    }
    assert KeyAll(e, intro) == (inside, []);
    SequenceSwallows(inside, params + inters);
    KeyAllConcat(e, intro, params + inters);
    KeyAllConcat(e, intro + (params + inters), [final]);
    KeyAllOne(inside, final);
  }

  /** A complete control sequence, typed at rest, leaves buffer, screen and state alone exactly when it
      is introduced in the 7-bit code. Introduced in the 8-bit code, all of it lands in the token. */
  lemma SwallowedIffSevenBit(e: Editor, i: Introducer, params: seq<byte>, inters: seq<byte>, final: byte)
    requires e.esc.NoEscape? && IsBody(params, inters, final)
    ensures var typed := Introduce(i) + (params + inters) + [final];
            && (KeyAll(e, typed) == (e, []) <==> i.SevenBit?)
            && (i.EightBit? ==> KeyAll(e, typed).0 == e.(buf := e.buf + typed))
  {
    if i.SevenBit? {
      SevenBitIsSwallowed(e, params, inters, final);
    } else {
      PlainBytesAreTyped(e, Introduce(i) + (params + inters) + [final]);
      assert |e.buf + (Introduce(i) + (params + inters) + [final])| > |e.buf|;
    }
  }

  // ---------------------------------------------------------------------------------------------
  // What the keys mean.

  /** A byte that stands for itself in the secret. */
  predicate IsTyped(b: byte) {
    b >= 32 && b != 127
  }

  predicate IsBackspace(b: byte) {
    b == 8 || b == 127
  }

  predicate IsEnter(b: byte) {
    b == 13 || b == 10
  }

  /** Outside an escape sequence: a typed byte is added at the end; Ctrl-U takes everything; Enter accepts and
      Ctrl-C cancels what is there; every other control byte does nothing but ESC, which starts a sequence. */
  lemma KeyMeans(e: Editor, b: byte)
    requires e.esc.NoEscape?
    ensures var k := Key(e, b);
            && (k.action.Done? <==> IsEnter(b)) && (k.action.Cancel? <==> b == 3)
            && (k.editor.esc.NoEscape? <==> b != 27)
            && (IsTyped(b) ==> k.editor.buf == e.buf + [b])
            && (b == 21 ==> k.editor.buf == [])
            && (!IsTyped(b) && !IsBackspace(b) && b != 21 ==> k.editor.buf == e.buf)
  {
  }

  /** Backspaces take back exactly the last bytes typed, one each, and nothing when there is none. */
  lemma {:induction false} BackspacesTakeBack(e: Editor, typed: seq<byte>, back: seq<byte>)
    requires e.esc.NoEscape?
    requires forall i :: 0 <= i < |typed| ==> IsTyped(typed[i])
    requires forall i :: 0 <= i < |back| ==> IsBackspace(back[i])
    ensures var all := e.buf + typed;
            KeyAll(e, typed + back).0 == e.(buf := if |back| <= |all| then all[..|all| - |back|] else [])
  {
    var all := e.buf + typed;
    if back == [] {
      assert typed + back == typed && all[..|all|] == all;
      PlainBytesAreTyped(e, typed);
    } else {
      var n := |back| - 1;
      assert (typed + back)[..|typed + back| - 1] == typed + back[..n];
      BackspacesTakeBack(e, typed, back[..n]);
    }
  }

  /** Inside an escape sequence no byte is typed, and none ends the prompt. */
  lemma SequencesAreQuiet(e: Editor, b: byte)
    requires !e.esc.NoEscape?
    ensures Key(e, b).editor.buf == e.buf && Key(e, b).echo == [] && Key(e, b).action.Continue?
  {
  }

  /** At `n` the operator pressed a key that ends the prompt. */
  ghost predicate EndsAt(bytes: seq<byte>, n: nat) {
    && n < |bytes| && Typed(bytes[..n]).ended.Continue? && Typed(bytes[..n]).editor.esc.NoEscape?
    && (IsEnter(bytes[n]) || bytes[n] == 3)
  }

  /** The prompt ends with the first Enter or Ctrl-C outside a sequence, with the secret as it then stood,
      taken in the one case and canceled in the other; it goes on while there is none. */
  lemma {:induction false} EndIsTold(bytes: seq<byte>, n: nat)
    ensures EndsAt(bytes, n) ==>
              && Typed(bytes).ended == (if IsEnter(bytes[n]) then Done else Cancel)
              && Typed(bytes).editor.buf == Typed(bytes[..n]).editor.buf
    ensures (forall m: nat :: !EndsAt(bytes, m)) <==> Typed(bytes).ended.Continue?
  {
    if bytes != [] {
      var l := |bytes| - 1;
      var before := bytes[..l];
      assert forall m: nat :: m <= l ==> before[..m] == bytes[..m];
      assert forall m: nat :: m < l ==> (EndsAt(before, m) <==> EndsAt(bytes, m));
      EndIsTold(before, n);
      if Typed(before).ended.Continue? {
        KeyEnds(Typed(before).editor, bytes[l]);
        assert EndsAt(bytes, l) <==> !Typed(bytes).ended.Continue?;
        assert forall m: nat :: m < l ==> !EndsAt(bytes, m);
      } else {
        assert !EndsAt(bytes, l);
        var m: nat :| EndsAt(before, m);
        assert EndsAt(bytes, m);
      }
    }
  }

  lemma KeyEnds(e: Editor, b: byte)
    ensures Key(e, b).action ==
            if !e.esc.NoEscape? then Continue else if IsEnter(b) then Done else if b == 3 then Cancel else Continue
    ensures !Key(e, b).action.Continue? ==> Key(e, b).editor.buf == e.buf
  {
  }

  // ---------------------------------------------------------------------------------------------

  /** The editor itself. */
  class Secret {
    var buf: seq<byte>
    var esc: Escape

    constructor ()
      ensures State() == EMPTY
    {
      buf, esc := [], NoEscape;
    }

    ghost function State(): Editor
      reads this
    {
      Editor(buf, esc)
    }

    method TypeKey(b: byte) returns (echo: seq<byte>, action: Action)
      modifies this
      ensures Keyed(State(), echo, action) == Key(old(State()), b)
    {
      match esc {
        case SeenEscape =>
          esc := if b == 0x5B || b == 0x4F then InSequence else NoEscape;
          return [], Continue;
        case InSequence =>
          if 0x40 <= b <= 0x7E {
            esc := NoEscape;
          }
          return [], Continue;
        case NoEscape =>
      }
      if b == CR || b == LF {
        return [CR, LF], Done;
      }
      if b == CTRL_C {
        return [CR, LF], Cancel;
      }
      if b == CTRL_U {
        var n := |buf|;
        buf := [];
        return Rubouts(n), Continue;
      }
      if b == DELETE || b == BACKSPACE {
        if |buf| == 0 {
          return [], Continue;
        }
        buf := buf[..|buf| - 1];
        return RUBOUT, Continue;
      }
      if b == ESC {
        esc := SeenEscape;
        return [], Continue;
      }
      if b < 0x20 {
        return [], Continue;
      }
      buf := buf + [b];
      return [STAR], Continue;
    }
  }

  datatype Outcome = Read(secret: seq<byte>) | Canceled | Failed

  /** The prompt's loop: `input` is what the terminal delivers before it ends, at its end of file or on
      an error. A secret cut off by the end of the file is taken as it is; an empty one is not. */
  method ReadMasked(input: seq<byte>, eof: bool) returns (outcome: Outcome, echoed: seq<byte>)
    ensures var p := Typed(input);
            && echoed == p.echoed
            && outcome == match p.ended
                          case Done => Read(p.editor.buf)
                          case Cancel => Canceled
                          case Continue => if eof && p.editor.buf != [] then Read(p.editor.buf) else Failed
  {
    var ed := new Secret();
    echoed := [];
    for i := 0 to |input|
      invariant Typed(input[..i]) == Prompt(ed.State(), echoed, Continue)
    {
      assert input[..i + 1][..i] == input[..i];
      var echo, action := ed.TypeKey(input[i]);
      echoed := echoed + echo;
      if !action.Continue? {
        EndedStays(input, i + 1);
        return if action.Done? then Read(ed.buf) else Canceled, echoed;
      }
    }
    assert input[..|input|] == input;
    return if eof && |ed.buf| > 0 then Read(ed.buf) else Failed, echoed;
  }

  lemma {:induction false} EndedStays(bytes: seq<byte>, n: nat)
    requires n <= |bytes| && !Typed(bytes[..n]).ended.Continue?
    ensures Typed(bytes) == Typed(bytes[..n])
  {
    if n == |bytes| {
      assert bytes[..n] == bytes;
    } else {
      var m := |bytes| - 1;
      assert bytes[..m][..n] == bytes[..n];
      EndedStays(bytes[..m], n);
    }
  }
}
