/** Installing and removing the reporting hooks in Claude Code's settings, among hooks that are somebody
    else's. */
module Install {
  import opened Basics
  import opened Shell

  // ---------------------------------------------------------------------------------------------
  // Ownership.

  predicate ContainsAt(s: string, m: string, i: nat) {
    i + |m| <= |s| && s[i..i + |m|] == m
  }

  predicate Contains(s: string, m: string) {
    exists i :: 0 <= i <= |s| && ContainsAt(s, m, i)
  }

  const REPORT_MARKER := REPORT + " " + EVENT_FLAG
  const FORMER_PREFIX := "FLEET_CONFIG="

  /** A leg with a config path carries it under the current variable or the former one. */
  const LEG_MARKERS := [CONFIG_PREFIX, FORMER_PREFIX]

  predicate HoldsMarker(s: string) {
    Contains(s, CONFIG_PREFIX) || Contains(s, FORMER_PREFIX)
  }

  predicate Owns(command: string, configPath: string) {
    && Contains(command, REPORT_MARKER)
    && if configPath == "" then !HoldsMarker(command)
       else exists i :: 0 <= i < |LEG_MARKERS| && (
              || Contains(command, LEG_MARKERS[i] + ShellQuote(configPath))
              || Contains(command, LEG_MARKERS[i] + configPath))
  }

  lemma ContainsPart(a: string, m: string, b: string)
    ensures Contains(a + m + b, m)
  {
    assert (a + m + b)[|a|..|a| + |m|] == m;
    assert ContainsAt(a + m + b, m, |a|);
  }

  lemma OccurrenceIsIn(s: string, m: string, i: nat)
    requires ContainsAt(s, m, i)
    ensures forall k :: i <= k < i + |m| ==> s[k] in m
  {
    forall k | i <= k < i + |m|
      ensures s[k] in m
    {
      assert s[i..i + |m|][k - i] == s[k];
    }
  }

  lemma SliceOfRest(a: string, b: string, i: nat, n: nat)
    requires i + n <= |b|
    ensures (a + b)[|a| + i..|a| + i + n] == b[i..i + n]
  {
  }

  /** A marker without a certain character stands on one side of it or the other. */
  lemma ContainsAround(a: string, c: char, b: string, m: string)
    requires c !in m && m != []
    ensures Contains(a + [c] + b, m) <==> Contains(a, m) || Contains(b, m)
  {
    var s := a + [c] + b;
    if Contains(s, m) {
      var i :| 0 <= i <= |s| && ContainsAt(s, m, i);
      OccurrenceIsIn(s, m, i);
      assert s[|a|] == c;
      assert !(i <= |a| < i + |m|);
      if i + |m| <= |a| {
        assert a[i..i + |m|] == s[i..i + |m|];
        assert ContainsAt(a, m, i);
      } else {
        var j := i - |a| - 1;
        SliceOfRest(a + [c], b, j, |m|);
        assert ContainsAt(b, m, j);
      }
    }
    if Contains(a, m) {
      var i :| 0 <= i <= |a| && ContainsAt(a, m, i);
      assert s[i..i + |m|] == a[i..i + |m|];
      assert ContainsAt(s, m, i);
    }
    if Contains(b, m) {
      var i :| 0 <= i <= |b| && ContainsAt(b, m, i);
      SliceOfRest(a + [c], b, i, |m|);
      assert ContainsAt(s, m, |a| + 1 + i);
    }
  }

  /** A text that quoting leaves as it is. */
  predicate Unquotable(m: string) {
    QUOTE !in m && BACKSLASH !in m && m != []
  }

  predicate EndsWith(s: string, m: string) {
    |m| <= |s| && s[|s| - |m|..] == m
  }

  lemma {:induction false} EscapeEnds(s: string, m: string)
    requires QUOTE !in m && BACKSLASH !in m
    ensures EndsWith(Escape(s), m) <==> EndsWith(s, m)
  {
    if s != [] && m != [] {
      var before, c := s[..|s| - 1], s[|s| - 1];
      var n := |m| - 1;
      EscapeEnds(before, m[..n]);
      assert m == m[..n] + [m[n]] && s == before + [c];
      EndsWithSnoc(before, c, m);
      if c == QUOTE {
        assert Escape(s)[|Escape(s)| - 1] == QUOTE;
        assert m[n] in m;
      } else {
        EndsWithSnoc(Escape(before), c, m);
      }
    }
  }

  lemma EndsWithSnoc(s: string, c: char, m: string)
    requires m != []
    ensures EndsWith(s + [c], m) <==> m[|m| - 1] == c && EndsWith(s, m[..|m| - 1])
  {
    var t, n := s + [c], |m| - 1;
    if |m| <= |t| {
      assert t[|t| - |m|..] == s[|s| - n..] + [c];
      assert m == m[..n] + [m[n]];
    }
  }

  lemma ContainsSnoc(s: string, c: char, m: string)
    requires m != []
    ensures Contains(s + [c], m) <==> Contains(s, m) || EndsWith(s + [c], m)
  {
    var t := s + [c];
    if Contains(t, m) {
      var i :| 0 <= i <= |t| && ContainsAt(t, m, i);
      if i + |m| <= |s| {
        assert s[i..i + |m|] == t[i..i + |m|];
        assert ContainsAt(s, m, i);
      } else {
        assert t[|t| - |m|..] == t[i..i + |m|];
      }
    }
    if Contains(s, m) {
      var i :| 0 <= i <= |s| && ContainsAt(s, m, i);
      assert t[i..i + |m|] == s[i..i + |m|];
      assert ContainsAt(t, m, i);
    }
    if EndsWith(t, m) {
      assert ContainsAt(t, m, |t| - |m|);
    }
  }

  /** Quoting neither hides a marker nor makes one. */
  lemma {:induction false} EscapeContains(s: string, m: string)
    requires Unquotable(m)
    ensures Contains(Escape(s), m) <==> Contains(s, m)
  {
    if s != [] {
      var before, c := s[..|s| - 1], s[|s| - 1];
      assert s == before + [c];
      EscapeContains(before, m);
      ContainsSnoc(before, c, m);
      EscapeEnds(s, m);
      if c == QUOTE {
        ReopenedHoldsNothing(Escape(before), m);
        assert !EndsWith(s, m) by {
          EndsWithSnoc(before, c, m);
          assert m[|m| - 1] in m;
        }
      } else {
        ContainsSnoc(Escape(before), c, m);
      }
    }
  }

  lemma ReopenedHoldsNothing(s: string, m: string)
    requires Unquotable(m)
    ensures Contains(s + REOPENED, m) <==> Contains(s, m)
  {
    var nothing: string := [];
    assert !Contains(nothing, m);
    assert s + REOPENED == s + [QUOTE] + [BACKSLASH, QUOTE, QUOTE];
    ContainsAround(s, QUOTE, [BACKSLASH, QUOTE, QUOTE], m);
    assert [BACKSLASH, QUOTE, QUOTE] == nothing + [BACKSLASH] + [QUOTE, QUOTE];
    ContainsAround(nothing, BACKSLASH, [QUOTE, QUOTE], m);
    assert [QUOTE, QUOTE] == nothing + [QUOTE] + [QUOTE];
    ContainsAround(nothing, QUOTE, [QUOTE], m);
    assert [QUOTE] == nothing + [QUOTE] + nothing;
    ContainsAround(nothing, QUOTE, nothing, m);
  }

  lemma QuoteContains(s: string, rest: string, m: string)
    requires Unquotable(m)
    ensures Contains(ShellQuote(s) + rest, m) <==> Contains(s, m) || Contains(rest, m)
  {
    var nothing: string := [];
    assert ShellQuote(s) + rest == nothing + [QUOTE] + (Escape(s) + [QUOTE] + rest);
    ContainsAround(nothing, QUOTE, Escape(s) + [QUOTE] + rest, m);
    ContainsAround(Escape(s), QUOTE, rest, m);
    EscapeContains(s, m);
    assert !Contains(nothing, m);
  }

  /** Nothing in what follows the binary starts like a marker, up to the event's name. */
  lemma TailContains(event: string, m: string)
    requires Unquotable(m) && ' ' !in m && m[0] !in EVENT_FLAG && m[0] !in REPORT
    ensures Contains(Tail(event), m) <==> Contains(event, m)
  {
    var nothing: string := [];
    var flagged := EVENT_FLAG + event;
    assert Tail(event) == nothing + [' '] + (REPORT + [' '] + flagged);
    ContainsAround(nothing, ' ', REPORT + [' '] + flagged, m);
    ContainsAround(REPORT, ' ', flagged, m);
    assert !Contains(nothing, m);
    StartsElsewhere(REPORT, nothing, m);
    assert REPORT + nothing == REPORT;
    StartsElsewhere(EVENT_FLAG, event, m);
  }

  /** A marker that starts with none of the characters of `a` is not found in it, nor across its end. */
  lemma StartsElsewhere(a: string, b: string, m: string)
    requires m != [] && m[0] !in a
    ensures Contains(a + b, m) <==> Contains(b, m)
  {
    var s := a + b;
    if Contains(s, m) {
      var i :| 0 <= i <= |s| && ContainsAt(s, m, i);
      assert s[i..i + |m|][0] == s[i] == m[0];
      var j := i - |a|;
      assert s[i..i + |m|] == b[j..j + |m|];
      assert ContainsAt(b, m, j);
    }
    if Contains(b, m) {
      var i :| 0 <= i <= |b| && ContainsAt(b, m, i);
      var j := i + |a|;
      assert s[j..j + |m|] == m;
      assert ContainsAt(s, m, j);
    }
  }

  lemma MarkersAreUnquotable()
    ensures Unquotable(CONFIG_PREFIX) && ' ' !in CONFIG_PREFIX
    ensures CONFIG_PREFIX[0] !in EVENT_FLAG && CONFIG_PREFIX[0] !in REPORT
    ensures Unquotable(FORMER_PREFIX) && ' ' !in FORMER_PREFIX
    ensures FORMER_PREFIX[0] !in EVENT_FLAG && FORMER_PREFIX[0] !in REPORT
  {
  }

  lemma TailReports(before: string, event: string)
    ensures Contains(before + Tail(event), REPORT_MARKER)
  {
    assert before + Tail(event) == (before + " ") + REPORT_MARKER + event;
    ContainsPart(before + " ", REPORT_MARKER, event);
  }

  /** A leg recognizes the command built for it: always when it has a config path; the production leg
      exactly when neither the binary's path nor the event's name holds a leg marker. */
  lemma BuiltIsOwned(binPath: string, configPath: string, event: string)
    ensures Owns(HookCommand(binPath, configPath, event), configPath) <==>
            configPath != "" || (!HoldsMarker(binPath) && !HoldsMarker(event))
  {
    var command := HookCommand(binPath, configPath, event);
    if configPath == "" {
      MarkersAreUnquotable();
      TailReports(ShellQuote(binPath), event);
      QuoteContains(binPath, Tail(event), CONFIG_PREFIX);
      QuoteContains(binPath, Tail(event), FORMER_PREFIX);
      TailContains(event, CONFIG_PREFIX);
      TailContains(event, FORMER_PREFIX);
    } else {
      var rest := " " + (ShellQuote(binPath) + Tail(event));
      var nothing: string := [];
      assert command == nothing + (CONFIG_PREFIX + ShellQuote(configPath)) + rest;
      ContainsPart(nothing, CONFIG_PREFIX + ShellQuote(configPath), rest);
      assert command == CONFIG_PREFIX + ShellQuote(configPath) + " " + ShellQuote(binPath) + Tail(event);
      TailReports(CONFIG_PREFIX + ShellQuote(configPath) + " " + ShellQuote(binPath), event);
      assert LEG_MARKERS[0] == CONFIG_PREFIX;
    }
  }

  // ---------------------------------------------------------------------------------------------
  // Settings.

  /** A JSON value. `integer` says whether a number decodes as one. */
  datatype Json =
    | Null | Bool(b: bool) | Number(text: string, integer: bool) | Str(s: string)
    | Arr(items: seq<Json>) | Obj(fields: map<string, Json>)

  predicate DecodesAsString(fields: map<string, Json>, key: string) {
    key !in fields || fields[key].Null? || fields[key].Str?
  }

  predicate DecodesAsInt(fields: map<string, Json>, key: string) {
    key !in fields || fields[key].Null? || (fields[key].Number? && fields[key].integer)
  }

  /** The command of a hook; None when the hook does not decode as one. */
  function CommandOf(h: Json): Option<string> {
    match h
    case Null => Some("")
    case Obj(fields) =>
      if DecodesAsString(fields, "type") && DecodesAsString(fields, "command") && DecodesAsInt(fields, "timeout")
      then Some(if "command" in fields && fields["command"].Str? then fields["command"].s else "")
      else None
    case _ => None
  }

  predicate IsOurs(h: Json, configPath: string) {
    CommandOf(h).Some? && Owns(CommandOf(h).value, configPath)
  }

  /** The hooks of an entry; None when it does not have the shape of one. */
  function Inner(m: Json): Option<seq<Json>> {
    if m.Obj? && "hooks" in m.fields then
      match m.fields["hooks"]
      case Arr(items) => Some(items)
      case Null => Some([])
      case _ => None
    else None
  }

  function Others(hooks: seq<Json>, configPath: string): (others: seq<Json>)
    ensures |others| <= |hooks|
  {
    if hooks == [] then []
    else
      var before, last := Others(hooks[..|hooks| - 1], configPath), hooks[|hooks| - 1];
      if IsOurs(last, configPath) then before else before + [last]
  }

  /** An entry without the leg's hooks; None when that leaves it with none at all. */
  function StripEntry(m: Json, configPath: string): Option<Json> {
    if Inner(m).None? then Some(m)
    else
      var inner := Inner(m).value;
      var kept := Others(inner, configPath);
      if |kept| == |inner| then Some(m)
      else if kept == [] then None
      else Some(Obj(m.fields["hooks" := Arr(kept)]))
  }

  function Strip(entries: seq<Json>, configPath: string): seq<Json> {
    if entries == [] then []
    else
      var before, last := Strip(entries[..|entries| - 1], configPath), StripEntry(entries[|entries| - 1], configPath);
      if last.Some? then before + [last.value] else before
  }

  /** An event's entries. A `null` stays apart from an empty list: it is written back as it was. */
  datatype Slot = NullSlot | Listed(entries: seq<Json>)

  type Hooks = map<string, Slot>

  function EntriesOf(hooks: Hooks, event: string): seq<Json> {
    if event in hooks && hooks[event].Listed? then hooks[event].entries else []
  }

  /** What a settings file holds. */
  datatype File = Blank | Malformed | Holds(json: Json)

  /** `fields` is None for a settings file that is `null`: the map it decodes to cannot be written to. */
  datatype Parsed = Unreadable | Parsed(fields: Option<map<string, Json>>, hooks: Hooks)

  datatype Outcome = Written(json: Json) | Failed | Panicked

  function ParseHooks(j: Json): Option<Hooks> {
    match j
    case Null => Some(map[])
    case Obj(fields) =>
      if forall k :: k in fields ==> fields[k].Null? || fields[k].Arr?
      then Some(map k | k in fields :: if fields[k].Arr? then Listed(fields[k].items) else NullSlot)
      else None
    case _ => None
  }

  function ParseSettings(file: File): Parsed {
    match file
    case Blank => Parsed(Some(map[]), map[])
    case Malformed => Unreadable
    case Holds(json) =>
      match json
      case Null => Parsed(None, map[])
      case Obj(fields) =>
        if "hooks" !in fields then Parsed(Some(fields), map[])
        else
          var hooks := ParseHooks(fields["hooks"]);
          if hooks.None? then Unreadable else Parsed(Some(fields), hooks.value)
      case _ => Unreadable
  }

  function EncodeHooks(hooks: Hooks): Json {
    Obj(map k | k in hooks :: if hooks[k].Listed? then Arr(hooks[k].entries) else Null)
  }

  function EncodeSettings(fields: Option<map<string, Json>>, hooks: Hooks): Outcome {
    if hooks == map[] then Written(if fields.None? then Null else Obj(fields.value - {"hooks"}))
    else if fields.None? then Panicked
    else Written(Obj(fields.value["hooks" := EncodeHooks(hooks)]))
  }

  /** Which leg, and how it is built. */
  datatype Leg = Leg(binPath: string, configPath: string, timeout: int, timeoutText: string)

  function LegHook(leg: Leg, event: string): Json {
    var fields := map["type" := Str("command"), "command" := Str(HookCommand(leg.binPath, leg.configPath, event))];
    Obj(if leg.timeout == 0 then fields else fields["timeout" := Number(leg.timeoutText, true)])
  }

  function LegEntry(leg: Leg, event: string): Json {
    Obj(map["matcher" := Str(""), "hooks" := Arr([LegHook(leg, event)])])
  }

  function MergeInto(hooks: Hooks, events: seq<string>, leg: Leg): Hooks {
    if events == [] then hooks
    else
      var before, event := MergeInto(hooks, events[..|events| - 1], leg), events[|events| - 1];
      before[event := Listed(Strip(EntriesOf(before, event), leg.configPath) + [LegEntry(leg, event)])]
  }

  function RemoveFrom(hooks: Hooks, configPath: string): Hooks {
    map k | k in hooks && Strip(EntriesOf(hooks, k), configPath) != [] :: Listed(Strip(EntriesOf(hooks, k), configPath))
  }

  function Merge(file: File, events: seq<string>, leg: Leg): Outcome {
    var p := ParseSettings(file);
    if p.Unreadable? then Failed else EncodeSettings(p.fields, MergeInto(p.hooks, events, leg))
  }

  function Remove(file: File, configPath: string): Outcome {
    var p := ParseSettings(file);
    if p.Unreadable? then Failed else EncodeSettings(p.fields, RemoveFrom(p.hooks, configPath))
  }

  // ---------------------------------------------------------------------------------------------
  // The loops that do it.

  method StripLegFromMatcher(m: Json, configPath: string) returns (stripped: Json, empty: bool)
    ensures empty <==> StripEntry(m, configPath).None?
    ensures !empty ==> stripped == StripEntry(m, configPath).value
  {
    if Inner(m).None? {
      return m, false;
    }
    var inner := Inner(m).value;
    var kept := [];
    for i := 0 to |inner|
      invariant kept == Others(inner[..i], configPath)
    {
      assert inner[..i + 1][..i] == inner[..i];
      if !IsOurs(inner[i], configPath) {
        kept := kept + [inner[i]];
      }
    }
    assert inner[..|inner|] == inner;
    if |kept| == |inner| {
      return m, false;
    }
    if |kept| == 0 {
      return Null, true;
    }
    return Obj(m.fields["hooks" := Arr(kept)]), false;
  }

  method StripLeg(matchers: seq<Json>, configPath: string) returns (kept: seq<Json>)
    ensures kept == Strip(matchers, configPath)
  {
    kept := [];
    for i := 0 to |matchers|
      invariant kept == Strip(matchers[..i], configPath)
    {
      assert matchers[..i + 1][..i] == matchers[..i];
      var stripped, empty := StripLegFromMatcher(matchers[i], configPath);
      if empty {
        continue;
      }
      kept := kept + [stripped];
    }
    assert matchers[..|matchers|] == matchers;
  }

  method MergeHooks(file: File, events: seq<string>, leg: Leg) returns (outcome: Outcome)
    ensures outcome == Merge(file, events, leg)
  {
    var p := ParseSettings(file);
    if p.Unreadable? {
      return Failed;
    }
    var hooks := p.hooks;
    for i := 0 to |events|
      invariant hooks == MergeInto(p.hooks, events[..i], leg)
    {
      assert events[..i + 1][..i] == events[..i];
      var kept := StripLeg(EntriesOf(hooks, events[i]), leg.configPath);
      hooks := hooks[events[i] := Listed(kept + [LegEntry(leg, events[i])])];
    }
    assert events[..|events|] == events;
    outcome := EncodeSettings(p.fields, hooks);
  }

  method RemoveHooks(file: File, configPath: string) returns (outcome: Outcome)
    ensures outcome == Remove(file, configPath)
  {
    var p := ParseSettings(file);
    if p.Unreadable? {
      return Failed;
    }
    var hooks: Hooks, rest := p.hooks, p.hooks.Keys;
    while rest != {}
      invariant rest <= p.hooks.Keys
      invariant forall k :: k in rest ==> k in hooks && hooks[k] == p.hooks[k]
      invariant forall k :: k !in rest ==>
                  (k in hooks <==> k in RemoveFrom(p.hooks, configPath))
                  && (k in hooks ==> hooks[k] == RemoveFrom(p.hooks, configPath)[k])
      decreases rest
    {
      var event :| event in rest;
      var kept := StripLeg(EntriesOf(hooks, event), configPath);
      if |kept| == 0 {
        hooks := hooks - {event};
      } else {
        hooks := hooks[event := Listed(kept)];
      }
      rest := rest - {event};
    }
    assert hooks == RemoveFrom(p.hooks, configPath);
    outcome := EncodeSettings(p.fields, hooks);
  }

  // ---------------------------------------------------------------------------------------------
  // Stripping.

  lemma {:induction false} OthersAreOthers(hooks: seq<Json>, configPath: string)
    ensures Others(Others(hooks, configPath), configPath) == Others(hooks, configPath)
  {
    if hooks != [] {
      var n := |hooks| - 1;
      var before := Others(hooks[..n], configPath);
      OthersAreOthers(hooks[..n], configPath);
      if !IsOurs(hooks[n], configPath) {
        assert (before + [hooks[n]])[..|before|] == before;
      }
    }
  }

  lemma StripEntryOnce(m: Json, configPath: string)
    ensures StripEntry(m, configPath).Some? ==>
              StripEntry(StripEntry(m, configPath).value, configPath) == StripEntry(m, configPath)
  {
    if Inner(m).Some? {
      OthersAreOthers(Inner(m).value, configPath);
    }
  }

  lemma StripSnoc(entries: seq<Json>, m: Json, configPath: string)
    ensures Strip(entries + [m], configPath) ==
            var kept := StripEntry(m, configPath);
            if kept.Some? then Strip(entries, configPath) + [kept.value] else Strip(entries, configPath)
  {
    assert (entries + [m])[..|entries|] == entries;
  }

  lemma {:induction false} StripOnce(entries: seq<Json>, configPath: string)
    ensures Strip(Strip(entries, configPath), configPath) == Strip(entries, configPath)
  {
    if entries != [] {
      var n := |entries| - 1;
      StripOnce(entries[..n], configPath);
      StripEntryOnce(entries[n], configPath);
      var kept := StripEntry(entries[n], configPath);
      if kept.Some? {
        StripSnoc(Strip(entries[..n], configPath), kept.value, configPath);
      }
    }
  }

  /** Whether the leg's own entry is recognized when it is met again. */
  lemma LegIsStripped(leg: Leg, event: string)
    ensures var entry := StripEntry(LegEntry(leg, event), leg.configPath);
            if Owns(HookCommand(leg.binPath, leg.configPath, event), leg.configPath) then entry.None?
            else entry == Some(LegEntry(leg, event))
  {
    var h := LegHook(leg, event);
    assert CommandOf(h) == Some(HookCommand(leg.binPath, leg.configPath, event));
    assert Inner(LegEntry(leg, event)) == Some([h]);
    assert [h][..0] == [];
    var nothing: seq<Json> := [];
    assert nothing + [h] == [h];
    assert Others([h], leg.configPath) == if IsOurs(h, leg.configPath) then nothing else nothing + [h];
  }

  /** The commands of a leg are its own: see `BuiltIsOwned` for when. */
  predicate OwnsItsOwn(leg: Leg, events: seq<string>) {
    forall i :: 0 <= i < |events| ==> Owns(HookCommand(leg.binPath, leg.configPath, events[i]), leg.configPath)
  }

  /** What merging makes of each event: the foreign part, then the leg's entry, once. */
  lemma {:induction false} MergedSlot(hooks: Hooks, events: seq<string>, leg: Leg, k: string)
    requires OwnsItsOwn(leg, events)
    ensures k in MergeInto(hooks, events, leg) <==> k in hooks || k in events
    ensures k in events ==>
              var foreign := Strip(EntriesOf(hooks, k), leg.configPath);
              MergeInto(hooks, events, leg)[k] == Listed(foreign + [LegEntry(leg, k)])
    ensures k in hooks && k !in events ==> MergeInto(hooks, events, leg)[k] == hooks[k]
  {
    if events != [] {
      var n := |events| - 1;
      var last := events[n];
      assert events == events[..n] + [last];
      MergedSlot(hooks, events[..n], leg, k);
      if k == last {
        var kept := Strip(EntriesOf(hooks, k), leg.configPath);
        var before := EntriesOf(MergeInto(hooks, events[..n], leg), k);
        StripOnce(EntriesOf(hooks, k), leg.configPath);
        StripSnoc(kept, LegEntry(leg, k), leg.configPath);
        LegIsStripped(leg, k);
        assert Strip(before, leg.configPath) == kept;
      }
    }
  }

  lemma ParseEncoded(fields: map<string, Json>, hooks: Hooks)
    requires hooks != map[]
    ensures EncodeSettings(Some(fields), hooks).Written?
    ensures ParseSettings(Holds(EncodeSettings(Some(fields), hooks).json)) ==
            Parsed(Some(fields["hooks" := EncodeHooks(hooks)]), hooks)
  {
    var encoded := EncodeHooks(hooks);
    assert ParseHooks(encoded).Some? && ParseHooks(encoded).value == hooks;
  }

  lemma {:induction false} MergeLeavesSome(hooks: Hooks, events: seq<string>, leg: Leg)
    ensures MergeInto(hooks, events, leg) == map[] <==> hooks == map[] && events == []
  {
    if events != [] {
      assert events[|events| - 1] in MergeInto(hooks, events, leg);
    }
  }

  /** A merge fails on settings it cannot read, panics on settings that are `null`, and otherwise writes. */
  lemma MergeOutcome(file: File, events: seq<string>, leg: Leg)
    ensures Merge(file, events, leg).Failed? <==> ParseSettings(file).Unreadable?
    ensures Merge(file, events, leg).Panicked? <==> file == Holds(Null) && events != []
  {
    var p := ParseSettings(file);
    if p.Parsed? {
      MergeLeavesSome(p.hooks, events, leg);
    }
  }

  lemma MergeTwiceInto(hooks: Hooks, events: seq<string>, leg: Leg)
    requires OwnsItsOwn(leg, events)
    ensures MergeInto(MergeInto(hooks, events, leg), events, leg) == MergeInto(hooks, events, leg)
  {
    var once := MergeInto(hooks, events, leg);
    var twice := MergeInto(once, events, leg);
    forall k
      ensures k in twice <==> k in once
      ensures k in once ==> twice[k] == once[k]
    {
      MergedSlot(hooks, events, leg, k);
      MergedSlot(once, events, leg, k);
      if k in events {
        var kept := Strip(EntriesOf(hooks, k), leg.configPath);
        StripOnce(EntriesOf(hooks, k), leg.configPath);
        StripSnoc(kept, LegEntry(leg, k), leg.configPath);
        LegIsStripped(leg, k);
      }
    }
  }

  /** Installing twice is installing once, whatever the settings held. */
  lemma MergeIsIdempotent(file: File, events: seq<string>, leg: Leg)
    requires OwnsItsOwn(leg, events) && Merge(file, events, leg).Written?
    ensures Merge(Holds(Merge(file, events, leg).json), events, leg) == Merge(file, events, leg)
  {
    var p := ParseSettings(file);
    var once := MergeInto(p.hooks, events, leg);
    MergeTwiceInto(p.hooks, events, leg);
    if once == map[] {
      MergeLeavesSome(p.hooks, events, leg);
      if p.fields.Some? {
        assert ParseSettings(Holds(Obj(p.fields.value - {"hooks"}))) == Parsed(Some(p.fields.value - {"hooks"}), map[]);
        assert p.fields.value - {"hooks"} - {"hooks"} == p.fields.value - {"hooks"};
      }
    } else {
      ParseEncoded(p.fields.value, once);
      var f := p.fields.value;
      assert f["hooks" := EncodeHooks(once)]["hooks" := EncodeHooks(once)] == f["hooks" := EncodeHooks(once)];
    }
  }

  lemma RemoveMergedFrom(hooks: Hooks, events: seq<string>, leg: Leg)
    requires OwnsItsOwn(leg, events)
    ensures RemoveFrom(MergeInto(hooks, events, leg), leg.configPath) == RemoveFrom(hooks, leg.configPath)
  {
    var merged := MergeInto(hooks, events, leg);
    var left, right := RemoveFrom(merged, leg.configPath), RemoveFrom(hooks, leg.configPath);
    forall k
      ensures k in left <==> k in right
      ensures k in left ==> left[k] == right[k]
    {
      MergedSlot(hooks, events, leg, k);
      if k in events {
        var kept := Strip(EntriesOf(hooks, k), leg.configPath);
        StripOnce(EntriesOf(hooks, k), leg.configPath);
        StripSnoc(kept, LegEntry(leg, k), leg.configPath);
        LegIsStripped(leg, k);
        assert Strip(EntriesOf(merged, k), leg.configPath) == kept;
      }
    }
  }

  lemma RemoveWritten(fields: map<string, Json>, hooks: Hooks, configPath: string)
    requires hooks != map[]
    ensures Remove(Holds(EncodeSettings(Some(fields), hooks).json), configPath) ==
            EncodeSettings(Some(fields), RemoveFrom(hooks, configPath))
  {
    ParseEncoded(fields, hooks);
    var left := RemoveFrom(hooks, configPath);
    assert fields["hooks" := EncodeHooks(hooks)] - {"hooks"} == fields - {"hooks"};
    assert fields["hooks" := EncodeHooks(hooks)]["hooks" := EncodeHooks(left)] == fields["hooks" := EncodeHooks(left)];
  }

  lemma RemoveUnhooked(fields: Option<map<string, Json>>, configPath: string)
    ensures EncodeSettings(fields, map[]).Written?
    ensures Remove(Holds(EncodeSettings(fields, map[]).json), configPath) == EncodeSettings(fields, map[])
  {
    assert RemoveFrom(map[], configPath) == map[];
    if fields.Some? {
      var f := fields.value - {"hooks"};
      assert ParseSettings(Holds(Obj(f))) == Parsed(Some(f), map[]);
      assert f - {"hooks"} == f;
    }
  }

  /** Removing what was just installed leaves what removing alone would have left. */
  lemma RemoveUndoesMerge(file: File, events: seq<string>, leg: Leg)
    requires OwnsItsOwn(leg, events) && Merge(file, events, leg).Written?
    ensures Remove(Holds(Merge(file, events, leg).json), leg.configPath) == Remove(file, leg.configPath)
  {
    var p := ParseSettings(file);
    var merged := MergeInto(p.hooks, events, leg);
    RemoveMergedFrom(p.hooks, events, leg);
    if merged == map[] {
      MergeLeavesSome(p.hooks, events, leg);
      RemoveUnhooked(p.fields, leg.configPath);
      assert RemoveFrom(p.hooks, leg.configPath) == map[];
    } else {
      RemoveWritten(p.fields.value, merged, leg.configPath);
    }
  }

  function Occurrences(events: seq<string>, event: string): nat {
    if events == [] then 0
    else Occurrences(events[..|events| - 1], event) + if events[|events| - 1] == event then 1 else 0
  }

  lemma {:induction false} OccursIfIn(events: seq<string>, event: string)
    requires event in events
    ensures Occurrences(events, event) > 0
  {
    var n := |events| - 1;
    assert events == events[..n] + [events[n]];
    if events[n] != event {
      OccursIfIn(events[..n], event);
    }
  }

  ghost predicate AllLegs(entries: seq<Json>, leg: Leg, event: string) {
    forall i :: 0 <= i < |entries| ==> entries[i] == LegEntry(leg, event)
  }

  lemma {:induction false} UnownedIsNotStripped(entries: seq<Json>, leg: Leg, event: string)
    requires !Owns(HookCommand(leg.binPath, leg.configPath, event), leg.configPath) && AllLegs(entries, leg, event)
    ensures Strip(entries, leg.configPath) == entries
  {
    if entries != [] {
      var n := |entries| - 1;
      UnownedIsNotStripped(entries[..n], leg, event);
      LegIsStripped(leg, event);
      assert entries == entries[..n] + [entries[n]];
    }
  }

  lemma {:induction false} UnownedSlot(hooks: Hooks, events: seq<string>, leg: Leg, event: string)
    requires !Owns(HookCommand(leg.binPath, leg.configPath, event), leg.configPath)
    requires AllLegs(EntriesOf(hooks, event), leg, event)
    ensures var after := EntriesOf(MergeInto(hooks, events, leg), event);
            AllLegs(after, leg, event) && |after| == |EntriesOf(hooks, event)| + Occurrences(events, event)
  {
    if events != [] {
      var n := |events| - 1;
      var before := EntriesOf(MergeInto(hooks, events[..n], leg), event);
      UnownedSlot(hooks, events[..n], leg, event);
      UnownedIsNotStripped(before, leg, event);
      assert EntriesOf(MergeInto(hooks, events, leg), event) ==
             if events[n] == event then before + [LegEntry(leg, event)] else before;
    }
  }

  /** A leg that does not recognize one of its own commands piles up: installing it a second time in a
      blank file adds to what the first time wrote. */
  lemma UnownedPilesUp(events: seq<string>, event: string, leg: Leg)
    requires event in events && !Owns(HookCommand(leg.binPath, leg.configPath, event), leg.configPath)
    ensures Merge(Blank, events, leg).Written?
    ensures Merge(Holds(Merge(Blank, events, leg).json), events, leg) != Merge(Blank, events, leg)
  {
    var fields: map<string, Json>, hooks: Hooks := map[], map[];
    var once := MergeInto(hooks, events, leg);
    var twice := MergeInto(once, events, leg);
    MergeLeavesSome(hooks, events, leg);
    MergeLeavesSome(once, events, leg);
    ParseEncoded(fields, once);
    UnownedSlot(hooks, events, leg, event);
    UnownedSlot(once, events, leg, event);
    OccursIfIn(events, event);
    EncodeIsOneToOne(once, twice);
    assert fields["hooks" := EncodeHooks(once)]["hooks"] == EncodeHooks(once);
    assert fields["hooks" := EncodeHooks(once)]["hooks" := EncodeHooks(twice)]["hooks"] == EncodeHooks(twice);
  }

  lemma EncodeIsOneToOne(a: Hooks, b: Hooks)
    ensures EncodeHooks(a) == EncodeHooks(b) <==> a == b
  {
    assert ParseHooks(EncodeHooks(a)).Some? && ParseHooks(EncodeHooks(a)).value == a;
    assert ParseHooks(EncodeHooks(b)).Some? && ParseHooks(EncodeHooks(b)).value == b;
  }

  /** Installing is idempotent on every settings file exactly when the leg recognizes its own commands. */
  lemma IdempotentIffOwned(events: seq<string>, leg: Leg)
    ensures OwnsItsOwn(leg, events) <==>
            forall file :: Merge(file, events, leg).Written? ==>
              Merge(Holds(Merge(file, events, leg).json), events, leg) == Merge(file, events, leg)
  {
    if OwnsItsOwn(leg, events) {
      forall file | Merge(file, events, leg).Written?
        ensures Merge(Holds(Merge(file, events, leg).json), events, leg) == Merge(file, events, leg)
      {
        MergeIsIdempotent(file, events, leg);
      }
    } else {
      var i :| 0 <= i < |events| && !Owns(HookCommand(leg.binPath, leg.configPath, events[i]), leg.configPath);
      UnownedPilesUp(events, events[i], leg);
    }
  }

  // ---------------------------------------------------------------------------------------------
  // What belongs to others.

  /** A foreign piece of an event's entries: an entry that holds no list of hooks, or one hook with the
      rest of the entry it stands in. */
  datatype Piece = Whole(m: Json) | Part(rest: map<string, Json>, h: Json)

  function Parts(rest: map<string, Json>, hooks: seq<Json>, configPath: string): seq<Piece> {
    if hooks == [] then []
    else
      var before, last := Parts(rest, hooks[..|hooks| - 1], configPath), hooks[|hooks| - 1];
      if IsOurs(last, configPath) then before else before + [Part(rest, last)]
  }

  function PiecesOf(m: Json, configPath: string): seq<Piece> {
    if Inner(m).None? || Inner(m).value == [] then [Whole(m)]
    else Parts(m.fields - {"hooks"}, Inner(m).value, configPath)
  }

  function Foreign(entries: seq<Json>, configPath: string): seq<Piece> {
    if entries == [] then []
    else Foreign(entries[..|entries| - 1], configPath) + PiecesOf(entries[|entries| - 1], configPath)
  }

  lemma {:induction false} PartsOfOthers(rest: map<string, Json>, hooks: seq<Json>, configPath: string)
    ensures Parts(rest, Others(hooks, configPath), configPath) == Parts(rest, hooks, configPath)
    ensures Others(hooks, configPath) == [] ==> Parts(rest, hooks, configPath) == []
  {
    if hooks != [] {
      var n := |hooks| - 1;
      PartsOfOthers(rest, hooks[..n], configPath);
      var before := Others(hooks[..n], configPath);
      if !IsOurs(hooks[n], configPath) {
        assert (before + [hooks[n]])[..|before|] == before;
      }
    }
  }

  lemma PiecesSurvive(m: Json, configPath: string)
    ensures var kept := StripEntry(m, configPath);
            PiecesOf(m, configPath) == if kept.Some? then PiecesOf(kept.value, configPath) else []
  {
    if Inner(m).Some? {
      var inner := Inner(m).value;
      var kept := Others(inner, configPath);
      PartsOfOthers(m.fields - {"hooks"}, inner, configPath);
      if |kept| != |inner| && kept != [] {
        var stripped := Obj(m.fields["hooks" := Arr(kept)]);
        assert stripped.fields - {"hooks"} == m.fields - {"hooks"};
        assert Inner(stripped) == Some(kept);
      }
    }
  }

  lemma ForeignSnoc(entries: seq<Json>, m: Json, configPath: string)
    ensures Foreign(entries + [m], configPath) == Foreign(entries, configPath) + PiecesOf(m, configPath)
  {
    assert (entries + [m])[..|entries|] == entries;
  }

  lemma {:induction false} StripKeepsForeign(entries: seq<Json>, configPath: string)
    ensures Foreign(Strip(entries, configPath), configPath) == Foreign(entries, configPath)
  {
    if entries != [] {
      var n := |entries| - 1;
      StripKeepsForeign(entries[..n], configPath);
      PiecesSurvive(entries[n], configPath);
      var kept := StripEntry(entries[n], configPath);
      if kept.Some? {
        ForeignSnoc(Strip(entries[..n], configPath), kept.value, configPath);
      } else {
        assert Foreign(entries[..n], configPath) + [] == Foreign(entries[..n], configPath);
      }
    }
  }

  /** An entry that holds none of the leg's hooks is handed back as it was. */
  lemma {:induction false} UntouchedIsSame(m: Json, configPath: string)
    requires Inner(m).Some? ==> forall i :: 0 <= i < |Inner(m).value| ==> !IsOurs(Inner(m).value[i], configPath)
    ensures StripEntry(m, configPath) == Some(m)
  {
    if Inner(m).Some? {
      AllOthers(Inner(m).value, configPath);
    }
  }

  lemma {:induction false} AllOthers(hooks: seq<Json>, configPath: string)
    requires forall i :: 0 <= i < |hooks| ==> !IsOurs(hooks[i], configPath)
    ensures Others(hooks, configPath) == hooks
  {
    if hooks != [] {
      var n := |hooks| - 1;
      AllOthers(hooks[..n], configPath);
      assert hooks == hooks[..n] + [hooks[n]];
    }
  }

  /** Neither installing nor removing a leg loses, changes or reorders anything that is somebody else's:
      every foreign entry and every foreign hook, even inside an entry shared with the leg, with whatever
      fields stand around it. */
  lemma ForeignIsKept(hooks: Hooks, events: seq<string>, leg: Leg, k: string)
    requires OwnsItsOwn(leg, events)
    ensures Foreign(EntriesOf(MergeInto(hooks, events, leg), k), leg.configPath) ==
            Foreign(EntriesOf(hooks, k), leg.configPath)
    ensures Foreign(EntriesOf(RemoveFrom(hooks, leg.configPath), k), leg.configPath) ==
            Foreign(EntriesOf(hooks, k), leg.configPath)
  {
    var entries := EntriesOf(hooks, k);
    var kept := Strip(entries, leg.configPath);
    StripKeepsForeign(entries, leg.configPath);
    MergedSlot(hooks, events, leg, k);
    if k in events {
      LegIsStripped(leg, k);
      PiecesSurvive(LegEntry(leg, k), leg.configPath);
      ForeignSnoc(kept, LegEntry(leg, k), leg.configPath);
      assert Foreign(kept, leg.configPath) + [] == Foreign(kept, leg.configPath);
    }
  }

  /** Nor is anything in the settings outside the hooks. */
  lemma OtherSettingsAreKept(file: File, events: seq<string>, leg: Leg, fields: map<string, Json>)
    requires file == Holds(Obj(fields))
    ensures Merge(file, events, leg).Written? ==>
              && Merge(file, events, leg).json.Obj?
              && Merge(file, events, leg).json.fields - {"hooks"} == fields - {"hooks"}
    ensures Remove(file, leg.configPath).Written? ==>
              && Remove(file, leg.configPath).json.Obj?
              && Remove(file, leg.configPath).json.fields - {"hooks"} == fields - {"hooks"}
  {
    var p := ParseSettings(file);
    if p.Parsed? {
      var merged, left := MergeInto(p.hooks, events, leg), RemoveFrom(p.hooks, leg.configPath);
      assert fields["hooks" := EncodeHooks(merged)] - {"hooks"} == fields - {"hooks"};
      assert fields["hooks" := EncodeHooks(left)] - {"hooks"} == fields - {"hooks"};
      assert fields - {"hooks"} - {"hooks"} == fields - {"hooks"};
    }
  }
}
