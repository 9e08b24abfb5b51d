/** Quoting for a POSIX shell, and the part of the shell's own lexer that has to undo it: sections 2.2.1
    (escape character) and 2.2.2 (single-quotes) of the Shell Command Language, token splitting at blanks,
    and the recognition of assignment words of section 2.10.2. */
module Shell {
  import opened Basics

  const QUOTE := '\''
  const BACKSLASH := '\\'
  const NEWLINE := '\n'

  // ---------------------------------------------------------------------------------------------
  // The lexer.

  /** A character of a word, and whether quoting took its special meaning away. */
  datatype Lexed = Lexed(c: char, quoted: bool)

  type Word = seq<Lexed>

  datatype Mode = Unquoted | Escaped | Quoted

  /** The words read so far, the one being read if any, and whether the text still is one simple command
      of plain words. */
  datatype Lexer = Lexer(words: seq<Word>, word: Option<Word>, mode: Mode, plain: bool)

  const START := Lexer([], None, Unquoted, true)

  /** The characters that mean more than themselves when nothing quotes them. A text that holds one is no
      longer plain: what the shell makes of it is outside this model. */
  predicate IsSpecial(c: char) {
    c in {'|', '&', ';', '<', '>', '(', ')', '$', '`', '"', '*', '?', '[', '#', '~', '!', '{', '}', NEWLINE}
  }

  predicate IsBlank(c: char) {
    c == ' ' || c == '\t'
  }

  predicate IsPlain(c: char) {
    !IsSpecial(c) && !IsBlank(c) && c != QUOTE && c != BACKSLASH
  }

  function Pending(l: Lexer): Word {
    if l.word.Some? then l.word.value else []
  }

  function Take(l: Lexer, c: char, quoted: bool): Lexer {
    l.(word := Some(Pending(l) + [Lexed(c, quoted)]))
  }

  function Step(l: Lexer, c: char): Lexer {
    match l.mode
    case Quoted => if c == QUOTE then l.(mode := Unquoted) else Take(l, c, true)
    case Escaped => if c == NEWLINE then l.(mode := Unquoted) else Take(l, c, true).(mode := Unquoted)
    case Unquoted =>
      if c == QUOTE then l.(word := Some(Pending(l)), mode := Quoted)
      else if c == BACKSLASH then l.(mode := Escaped)
      else if IsBlank(c) then
        if l.word.Some? then l.(words := l.words + [l.word.value], word := None) else l
      else if IsSpecial(c) then l.(plain := false)
      else Take(l, c, false)
  }

  function LexFrom(l: Lexer, s: string): Lexer {
    if s == [] then l else Step(LexFrom(l, s[..|s| - 1]), s[|s| - 1])
  }

  /** The words of a plain simple command; None when the text is anything else, or ends in a quotation. */
  function Lex(s: string): Option<seq<Word>> {
    var l := LexFrom(START, s);
    if !l.plain || !l.mode.Unquoted? then None
    else Some(l.words + if l.word.Some? then [l.word.value] else [])
  }

  /** Quote removal. */
  function Text(w: Word): string {
    seq(|w|, i requires 0 <= i < |w| => w[i].c)
  }

  // ---------------------------------------------------------------------------------------------
  // Assignments, and the command they come before.

  predicate IsNameChar(c: char) {
    'a' <= c <= 'z' || 'A' <= c <= 'Z' || '0' <= c <= '9' || c == '_'
  }

  /** Where the unquoted `=` of an assignment word stands, after an unquoted name; |w| if nowhere. */
  function NameEnd(w: Word, i: nat): (end: nat)
    requires i <= |w|
    ensures i <= end <= |w|
    decreases |w| - i
  {
    if i == |w| || w[i].quoted then |w|
    else if w[i].c == '=' then i
    else if IsNameChar(w[i].c) then NameEnd(w, i + 1)
    else |w|
  }

  predicate IsAssignment(w: Word) {
    0 < NameEnd(w, 0) < |w| && !('0' <= w[0].c <= '9')
  }

  datatype Command = Command(assignments: seq<(string, string)>, args: seq<string>)

  /** The leading assignment words, then the command and its arguments. */
  function Parse(words: seq<Word>): Command {
    if words == [] then Command([], [])
    else if IsAssignment(words[0]) then
      var rest, end := Parse(words[1..]), NameEnd(words[0], 0);
      rest.(assignments := [(Text(words[0])[..end], Text(words[0])[end + 1..])] + rest.assignments)
    else Command([], Texts(words))
  }

  function Texts(words: seq<Word>): seq<string> {
    if words == [] then [] else [Text(words[0])] + Texts(words[1..])
  }

  // ---------------------------------------------------------------------------------------------
  // Quoting.

  /** Close, escape, reopen: what stands for a quote inside single quotes. */
  const REOPENED: string := [QUOTE, BACKSLASH, QUOTE, QUOTE]

  function Escape(s: string): string {
    if s == [] then [] else Escape(s[..|s| - 1]) + if s[|s| - 1] == QUOTE then REOPENED else [s[|s| - 1]]
  }

  function ShellQuote(s: string): string {
    [QUOTE] + Escape(s) + [QUOTE]
  }

  function AllQuoted(s: string): Word {
    seq(|s|, i requires 0 <= i < |s| => Lexed(s[i], true))
  }

  function NoneQuoted(s: string): Word {
    seq(|s|, i requires 0 <= i < |s| => Lexed(s[i], false))
  }

  lemma {:induction false} LexConcat(l: Lexer, a: string, b: string)
    ensures LexFrom(l, a + b) == LexFrom(LexFrom(l, a), b)
  {
    if b == [] {
      assert a + b == a;
    } else {
      assert (a + b)[..|a + b| - 1] == a + b[..|b| - 1];
      LexConcat(l, a, b[..|b| - 1]);
    }
  }

  lemma LexOne(l: Lexer, c: char)
    ensures LexFrom(l, [c]) == Step(l, c)
  {
    assert [c][..0] == [];
  }

  lemma LexReopened(l: Lexer)
    requires l.mode.Quoted? && l.word.Some?
    ensures LexFrom(l, REOPENED) == Take(l, QUOTE, true)
  {
    assert REOPENED[..3][..2][..1] == [QUOTE] && REOPENED[..3][..2] == [QUOTE, BACKSLASH];
    LexOne(l, QUOTE);
    assert LexFrom(l, REOPENED[..3][..2]) == Step(Step(l, QUOTE), BACKSLASH);
    assert LexFrom(l, REOPENED[..3]) == Step(Step(Step(l, QUOTE), BACKSLASH), QUOTE);
  }

  lemma {:induction false} EscapeIsRead(l: Lexer, s: string)
    requires l.mode.Quoted? && l.word.Some?
    ensures LexFrom(l, Escape(s)) == l.(word := Some(l.word.value + AllQuoted(s)))
  {
    if s == [] {
      assert l.word.value + AllQuoted(s) == l.word.value;
    } else {
      var before, c := s[..|s| - 1], s[|s| - 1];
      EscapeIsRead(l, before);
      var read := LexFrom(l, Escape(before));
      assert l.word.value + AllQuoted(s) == l.word.value + AllQuoted(before) + [Lexed(c, true)];
      if c == QUOTE {
        LexReopened(read);
        LexConcat(l, Escape(before), REOPENED);
      } else {
        LexOne(read, c);
        LexConcat(l, Escape(before), [c]);
      }
    }
  }

  /** Wherever it stands in a word, a quoted string is read as its characters, all of them quoted, and
      nothing is left open. */
  lemma QuoteIsRead(l: Lexer, s: string)
    requires l.mode.Unquoted?
    ensures LexFrom(l, ShellQuote(s)) == l.(word := Some(Pending(l) + AllQuoted(s)))
  {
    var inside := l.(word := Some(Pending(l)), mode := Quoted);
    LexOne(l, QUOTE);
    EscapeIsRead(inside, s);
    LexConcat(l, [QUOTE], Escape(s));
    LexConcat(l, [QUOTE] + Escape(s), [QUOTE]);
    LexOne(LexFrom(inside, Escape(s)), QUOTE);
  }

  /** The shell undoes the quoting: for every string, one word, and that word the string. */
  lemma QuoteRoundTrip(s: string)
    ensures Lex(ShellQuote(s)) == Some([AllQuoted(s)]) && Text(AllQuoted(s)) == s
  {
    QuoteIsRead(START, s);
    var nothing: Word, none: seq<Word> := [], [];
    assert nothing + AllQuoted(s) == AllQuoted(s) && none + [AllQuoted(s)] == [AllQuoted(s)];
  }

  lemma {:induction false} PlainIsRead(l: Lexer, s: string)
    requires l.mode.Unquoted? && s != [] && forall i :: 0 <= i < |s| ==> IsPlain(s[i])
    ensures LexFrom(l, s) == l.(word := Some(Pending(l) + NoneQuoted(s)))
  {
    var before, c := s[..|s| - 1], s[|s| - 1];
    assert Pending(l) + NoneQuoted(s) == Pending(l) + NoneQuoted(before) + [Lexed(c, false)];
    if before == [] {
      assert Pending(l) + NoneQuoted(before) == Pending(l);
    } else {
      PlainIsRead(l, before);
    }
  }

  // ---------------------------------------------------------------------------------------------
  // The hook command.

  const REPORT := "report"
  const EVENT_FLAG := "--event="
  const CONFIG_VARIABLE := "VIGIE_CONFIG"
  const CONFIG_PREFIX := "VIGIE_CONFIG="

  /** What follows the binary. */
  function Tail(event: string): string {
    (" " + REPORT) + (" " + (EVENT_FLAG + event))
  }

  /** The hook command of one event: for the production leg, or with a config path of its own. */
  function HookCommand(binPath: string, configPath: string, event: string): string {
    if configPath == "" then ShellQuote(binPath) + Tail(event)
    else CONFIG_PREFIX + ShellQuote(configPath) + (" " + (ShellQuote(binPath) + Tail(event)))
  }

  lemma BlankEnds(l: Lexer)
    requires l.mode.Unquoted? && l.word.Some?
    ensures LexFrom(l, " ") == l.(words := l.words + [l.word.value], word := None)
  {
    LexOne(l, ' ');
  }

  /** A blank and a plain word after a word. */
  lemma WordIsRead(l: Lexer, s: string)
    requires l.mode.Unquoted? && l.word.Some?
    requires s != [] && forall i :: 0 <= i < |s| ==> IsPlain(s[i])
    ensures LexFrom(l, " " + s) == l.(words := l.words + [l.word.value], word := Some(NoneQuoted(s)))
  {
    var ended := l.(words := l.words + [l.word.value], word := None);
    var nothing: Word := [];
    BlankEnds(l);
    PlainIsRead(ended, s);
    assert nothing + NoneQuoted(s) == NoneQuoted(s);
    LexConcat(l, " ", s);
  }

  lemma TailIsRead(l: Lexer, event: string)
    requires l.mode.Unquoted? && l.word.Some? && forall i :: 0 <= i < |event| ==> IsPlain(event[i])
    ensures LexFrom(l, Tail(event)) ==
            l.(words := l.words + [l.word.value] + [NoneQuoted(REPORT)], word := Some(NoneQuoted(EVENT_FLAG + event)))
  {
    var read := l.(words := l.words + [l.word.value], word := Some(NoneQuoted(REPORT)));
    WordIsRead(l, REPORT);
    WordIsRead(read, EVENT_FLAG + event);
    LexConcat(l, " " + REPORT, " " + (EVENT_FLAG + event));
  }

  /** The binary and its arguments, read as words after any that came before. */
  lemma InvocationIsRead(l: Lexer, binPath: string, event: string)
    requires l.mode.Unquoted? && l.word.None? && forall i :: 0 <= i < |event| ==> IsPlain(event[i])
    ensures LexFrom(l, ShellQuote(binPath) + Tail(event)) ==
            l.(words := l.words + [AllQuoted(binPath)] + [NoneQuoted(REPORT)],
               word := Some(NoneQuoted(EVENT_FLAG + event)))
  {
    var nothing: Word := [];
    QuoteIsRead(l, binPath);
    assert nothing + AllQuoted(binPath) == AllQuoted(binPath);
    LexConcat(l, ShellQuote(binPath), Tail(event));
    TailIsRead(l.(word := Some(AllQuoted(binPath))), event);
  }

  function ConfigWord(configPath: string): Word {
    NoneQuoted(CONFIG_PREFIX) + AllQuoted(configPath)
  }

  lemma ConfigIsRead(configPath: string)
    ensures LexFrom(START, CONFIG_PREFIX + ShellQuote(configPath)) == START.(word := Some(ConfigWord(configPath)))
  {
    var nothing: Word := [];
    PlainIsRead(START, CONFIG_PREFIX);
    assert nothing + NoneQuoted(CONFIG_PREFIX) == NoneQuoted(CONFIG_PREFIX);
    LexConcat(START, CONFIG_PREFIX, ShellQuote(configPath));
    QuoteIsRead(START.(word := Some(NoneQuoted(CONFIG_PREFIX))), configPath);
  }

  function Invocation(binPath: string, event: string): seq<Word> {
    [AllQuoted(binPath), NoneQuoted(REPORT), NoneQuoted(EVENT_FLAG + event)]
  }

  /** The words of the built command. */
  lemma CommandWords(binPath: string, configPath: string, event: string)
    requires forall i :: 0 <= i < |event| ==> IsPlain(event[i])
    ensures Lex(HookCommand(binPath, configPath, event)) ==
            Some((if configPath == "" then [] else [ConfigWord(configPath)]) + Invocation(binPath, event))
  {
    var before: Lexer := if configPath == "" then START else START.(words := [ConfigWord(configPath)]);
    InvocationIsRead(before, binPath, event);
    assert before.words + [AllQuoted(binPath)] + [NoneQuoted(REPORT)] + [NoneQuoted(EVENT_FLAG + event)] ==
           before.words + Invocation(binPath, event);
    if configPath != "" {
      LedByConfig(configPath, ShellQuote(binPath) + Tail(event));
    }
  }

  lemma LedByConfig(configPath: string, invocation: string)
    ensures LexFrom(START, CONFIG_PREFIX + ShellQuote(configPath) + (" " + invocation)) ==
            LexFrom(START.(words := [ConfigWord(configPath)]), invocation)
  {
    var read := START.(word := Some(ConfigWord(configPath)));
    var none: seq<Word> := [];
    ConfigIsRead(configPath);
    BlankEnds(read);
    assert none + [ConfigWord(configPath)] == [ConfigWord(configPath)];
    LexConcat(START, CONFIG_PREFIX + ShellQuote(configPath), " " + invocation);
    LexConcat(read, " ", invocation);
  }

  lemma {:induction false} NameEndsAt(w: Word, i: nat, end: nat)
    requires i <= end < |w| && w[end] == Lexed('=', false)
    requires forall j :: i <= j < end ==> !w[j].quoted && IsNameChar(w[j].c) && w[j].c != '='
    ensures NameEnd(w, i) == end
    decreases end - i
  {
    if i < end {
      NameEndsAt(w, i + 1, end);
    }
  }

  lemma ConfigIsAssignment(configPath: string)
    ensures var w := ConfigWord(configPath);
            && IsAssignment(w) && NameEnd(w, 0) == |CONFIG_VARIABLE|
            && Text(w)[..|CONFIG_VARIABLE|] == CONFIG_VARIABLE
            && Text(w)[|CONFIG_VARIABLE| + 1..] == configPath
  {
    var w := ConfigWord(configPath);
    assert CONFIG_PREFIX == CONFIG_VARIABLE + "=";
    assert forall j :: 0 <= j < |CONFIG_VARIABLE| ==> w[j] == Lexed(CONFIG_VARIABLE[j], false) && IsNameChar(w[j].c);
    NameEndsAt(w, 0, |CONFIG_VARIABLE|);
    assert Text(w) == CONFIG_VARIABLE + "=" + configPath;
    assert (CONFIG_VARIABLE + "=" + configPath)[|CONFIG_VARIABLE| + 1..] == configPath;
  }

  /** A quoted word is never taken for an assignment, whatever it holds. */
  lemma QuotedIsNoAssignment(s: string)
    ensures !IsAssignment(AllQuoted(s))
  {
  }

  /** What the hook command of an event is meant to run: one assignment if the leg has a config path and
      none otherwise, then the binary with its two arguments. */
  function Meant(binPath: string, configPath: string, event: string): Command {
    Command(if configPath == "" then [] else [(CONFIG_VARIABLE, configPath)],
            [binPath, REPORT, EVENT_FLAG + event])
  }

  /** Whether the shell reads a text as one simple command of literal words, and that the one given. */
  predicate ReadsAs(s: string, command: Command) {
    Lex(s).Some? && Parse(Lex(s).value) == command
  }

  /** For every binary, config path and event: the shell runs exactly what was meant if and only if no
      character of the event needs quoting, the event being the one part spliced in without. */
  lemma CommandIsRead(binPath: string, configPath: string, event: string)
    ensures ReadsAs(HookCommand(binPath, configPath, event), Meant(binPath, configPath, event)) <==>
            forall i :: 0 <= i < |event| ==> IsPlain(event[i])
  {
    if i :| 0 <= i < |event| && !IsPlain(event[i]) {
      EventIsMisread(binPath, configPath, event);
    } else {
      PlainCommandIsRead(binPath, configPath, event);
    }
  }

  lemma PlainCommandIsRead(binPath: string, configPath: string, event: string)
    requires forall i :: 0 <= i < |event| ==> IsPlain(event[i])
    ensures ReadsAs(HookCommand(binPath, configPath, event), Meant(binPath, configPath, event))
  {
    var invocation := Invocation(binPath, event);
    CommandWords(binPath, configPath, event);
    QuotedIsNoAssignment(binPath);
    TextsOf(binPath, event);
    assert Parse(invocation) == Command([], [binPath, REPORT, EVENT_FLAG + event]);
    if configPath == "" {
      assert [] + invocation == invocation;
    } else {
      ConfigIsAssignment(configPath);
      assert ([ConfigWord(configPath)] + invocation)[1..] == invocation;
    }
  }

  lemma TextsOf(binPath: string, event: string)
    ensures Texts(Invocation(binPath, event)) == [binPath, REPORT, EVENT_FLAG + event]
  {
    var words := Invocation(binPath, event);
    assert words[1..] == [NoneQuoted(REPORT), NoneQuoted(EVENT_FLAG + event)];
    assert words[1..][1..] == [NoneQuoted(EVENT_FLAG + event)];
    assert words[1..][1..][1..] == [];
    TextIs(binPath);
    TextIs(REPORT);
    TextIs(EVENT_FLAG + event);
    assert Texts(words[1..][1..]) == [EVENT_FLAG + event];
    assert Texts(words[1..]) == [REPORT, EVENT_FLAG + event];
  }

  lemma TextIs(s: string)
    ensures Text(AllQuoted(s)) == s && Text(NoneQuoted(s)) == s
  {
  }

  // ---------------------------------------------------------------------------------------------
  // An event that needs quoting: its first character to do so adds nothing to any word, so the words
  // read are too short to be those meant.

  function WordsSize(words: seq<Word>): nat {
    if words == [] then 0 else |words[0]| + WordsSize(words[1..])
  }

  function Size(l: Lexer): nat {
    WordsSize(l.words) + |Pending(l)|
  }

  lemma {:induction false} WordsSizeAdd(words: seq<Word>, w: Word)
    ensures WordsSize(words + [w]) == WordsSize(words) + |w|
  {
    if words == [] {
      assert (words + [w])[1..] == [];
    } else {
      assert (words + [w])[1..] == words[1..] + [w];
      WordsSizeAdd(words[1..], w);
    }
  }

  /** No character makes the words grow by more than itself, and what is special stays so. */
  lemma {:induction false} SizeGrows(l: Lexer, s: string)
    ensures Size(LexFrom(l, s)) <= Size(l) + |s|
    ensures LexFrom(l, s).plain ==> l.plain
  {
    if s != [] {
      var before := LexFrom(l, s[..|s| - 1]);
      SizeGrows(l, s[..|s| - 1]);
      WordsSizeAdd(before.words, Pending(before));
    }
  }

  /** A character that needs quoting and has none adds nothing, or is special. */
  lemma BareGrowsNothing(l: Lexer, c: char)
    requires l.mode.Unquoted? && !IsPlain(c)
    ensures Size(Step(l, c)) == Size(l) || !Step(l, c).plain
  {
    WordsSizeAdd(l.words, Pending(l));
  }

  lemma {:induction false} BareIsLost(l: Lexer, s: string, i: nat)
    requires l.mode.Unquoted? && i < |s| && !IsPlain(s[i])
    ensures LexFrom(l, s).plain ==> Size(LexFrom(l, s)) < Size(l) + |s|
  {
    if j: nat :| j < i && !IsPlain(s[j]) {
      BareIsLost(l, s, j);
    } else {
      var read := LexFrom(l, s[..i]);
      if i > 0 {
        PlainIsRead(l, s[..i]);
      }
      assert s[..i + 1][..i] == s[..i] && s == s[..i + 1] + s[i + 1..];
      BareGrowsNothing(read, s[i]);
      LexConcat(l, s[..i + 1], s[i + 1..]);
      SizeGrows(l, s[..i]);
      SizeGrows(Step(read, s[i]), s[i + 1..]);
    }
  }

  function TextsSize(texts: seq<string>): nat {
    if texts == [] then 0 else |texts[0]| + TextsSize(texts[1..])
  }

  function AssignmentsSize(assignments: seq<(string, string)>): nat {
    if assignments == [] then 0
    else |assignments[0].0| + 1 + |assignments[0].1| + AssignmentsSize(assignments[1..])
  }

  function CommandSize(command: Command): nat {
    AssignmentsSize(command.assignments) + TextsSize(command.args)
  }

  lemma {:induction false} TextsKeepSize(words: seq<Word>)
    ensures TextsSize(Texts(words)) == WordsSize(words)
  {
    if words != [] {
      TextsKeepSize(words[1..]);
      assert Texts(words)[1..] == Texts(words[1..]);
    }
  }

  /** Parsing loses no character. */
  lemma {:induction false} ParseKeepsSize(words: seq<Word>)
    ensures CommandSize(Parse(words)) == WordsSize(words)
  {
    TextsKeepSize(words);
    if words != [] && IsAssignment(words[0]) {
      ParseKeepsSize(words[1..]);
      assert Parse(words).assignments[1..] == Parse(words[1..]).assignments;
    }
  }

  /** How many characters the words of a text hold. */
  lemma ReadSize(s: string, command: Command)
    requires ReadsAs(s, command)
    ensures LexFrom(START, s).plain && Size(LexFrom(START, s)) == CommandSize(command)
  {
    var l := LexFrom(START, s);
    ParseKeepsSize(Lex(s).value);
    if l.word.Some? {
      WordsSizeAdd(l.words, l.word.value);
    } else {
      assert l.words + [] == l.words;
    }
  }

  /** An event is read last, after an empty one. */
  lemma EventComesLast(binPath: string, configPath: string, event: string)
    ensures HookCommand(binPath, configPath, event) == HookCommand(binPath, configPath, "") + event
  {
    assert EVENT_FLAG + "" == EVENT_FLAG;
    assert Tail(event) == Tail("") + event;
  }

  lemma EventIsMisread(binPath: string, configPath: string, event: string)
    requires exists i :: 0 <= i < |event| && !IsPlain(event[i])
    ensures !ReadsAs(HookCommand(binPath, configPath, event), Meant(binPath, configPath, event))
  {
    var s, meant := HookCommand(binPath, configPath, event), Meant(binPath, configPath, event);
    var before := HookCommand(binPath, configPath, "");
    if ReadsAs(s, meant) {
      var i: nat :| i < |event| && !IsPlain(event[i]);
      PlainCommandIsRead(binPath, configPath, "");
      ReadSize(before, Meant(binPath, configPath, ""));
      ReadSize(s, meant);
      EventComesLast(binPath, configPath, event);
      LexConcat(START, before, event);
      BareIsLost(LexFrom(START, before), event, i);
      MeantSize(binPath, configPath, event);
    }
  }

  lemma MeantSize(binPath: string, configPath: string, event: string)
    ensures CommandSize(Meant(binPath, configPath, event)) ==
            CommandSize(Meant(binPath, configPath, "")) + |event|
  {
    ArgsSize(binPath, EVENT_FLAG + event);
    ArgsSize(binPath, EVENT_FLAG + "");
  }

  lemma ArgsSize(binPath: string, last: string)
    ensures TextsSize([binPath, REPORT, last]) == |binPath| + |REPORT| + |last|
  {
    assert TextsSize([last]) == |last|;
    assert [REPORT, last][1..] == [last];
    assert TextsSize([REPORT, last]) == |REPORT| + |last|;
    assert [binPath, REPORT, last][1..] == [REPORT, last];
  }
}
