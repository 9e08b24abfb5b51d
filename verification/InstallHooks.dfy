/** What installing and removing leave in a settings file, told over the entries and hooks of the JSON that
    is written. */
module InstallHooks {
  import opened Basics
  import opened Shell
  import opened Install

  // ---------------------------------------------------------------------------------------------
  // Reading written settings.

  function ListsIn(json: Json): map<string, Json> {
    if json.Obj? && "hooks" in json.fields && json.fields["hooks"].Obj? then json.fields["hooks"].fields else map[]
  }

  /** The entries of an event. */
  function EntriesIn(json: Json, event: string): seq<Json> {
    if event in ListsIn(json) && ListsIn(json)[event].Arr? then ListsIn(json)[event].items else []
  }

  /** Hook `j` of entry `i`, if there is one. */
  function HookIn(entries: seq<Json>, i: nat, j: nat): Option<Json> {
    if i < |entries| && Inner(entries[i]).Some? && j < |Inner(entries[i]).value|
    then Some(Inner(entries[i]).value[j])
    else None
  }

  function HookAt(json: Json, event: string, i: nat, j: nat): Option<Json> {
    HookIn(EntriesIn(json, event), i, j)
  }

  /** It is one of the leg's. */
  predicate IsOursAt(json: Json, event: string, i: nat, j: nat, configPath: string) {
    HookAt(json, event, i, j).Some? && IsOurs(HookAt(json, event, i, j).value, configPath)
  }

  lemma ListsInWritten(fields: Option<map<string, Json>>, hooks: Hooks, event: string)
    requires EncodeSettings(fields, hooks).Written?
    ensures var json := EncodeSettings(fields, hooks).json;
            && ListsIn(json).Keys == hooks.Keys
            && EntriesIn(json, event) == EntriesOf(hooks, event)
            && (json.Obj? && "hooks" in json.fields <==> hooks != map[])
  {
  }

  // ---------------------------------------------------------------------------------------------
  // Nothing of the leg is left by stripping.

  ghost predicate HoldsNone(m: Json, configPath: string) {
    Inner(m).Some? ==> forall j :: 0 <= j < |Inner(m).value| ==> !IsOurs(Inner(m).value[j], configPath)
  }

  lemma {:induction false} OthersAreTheirs(hooks: seq<Json>, configPath: string)
    ensures forall j :: 0 <= j < |Others(hooks, configPath)| ==> !IsOurs(Others(hooks, configPath)[j], configPath)
    ensures |Others(hooks, configPath)| == |hooks| ==> Others(hooks, configPath) == hooks
  {
    if hooks != [] {
      var n := |hooks| - 1;
      OthersAreTheirs(hooks[..n], configPath);
      assert hooks == hooks[..n] + [hooks[n]];
    }
  }

  lemma StrippedHoldsNone(m: Json, configPath: string)
    ensures StripEntry(m, configPath).Some? ==> HoldsNone(StripEntry(m, configPath).value, configPath)
  {
    if Inner(m).Some? {
      OthersAreTheirs(Inner(m).value, configPath);
    }
  }

  lemma {:induction false} StripLeavesNone(entries: seq<Json>, configPath: string)
    ensures forall i :: 0 <= i < |Strip(entries, configPath)| ==> HoldsNone(Strip(entries, configPath)[i], configPath)
  {
    if entries != [] {
      StripLeavesNone(entries[..|entries| - 1], configPath);
      StrippedHoldsNone(entries[|entries| - 1], configPath);
    }
  }

  // ---------------------------------------------------------------------------------------------
  // Removing.

  /** After a removal no hook of the leg is left in any entry of any event; no event is left without an
      entry; and without events, no `hooks` either. */
  lemma RemoveLeavesNone(file: File, configPath: string)
    requires Remove(file, configPath).Written?
    ensures var json := Remove(file, configPath).json;
            && (forall event, i: nat, j: nat :: !IsOursAt(json, event, i, j, configPath))
            && (forall event :: event in ListsIn(json) ==> EntriesIn(json, event) != [])
            && (json.Obj? && "hooks" in json.fields ==> ListsIn(json) != map[])
  {
    var p, json := ParseSettings(file), Remove(file, configPath).json;
    var left := RemoveFrom(p.hooks, configPath);
    forall event
      ensures EntriesIn(json, event) == EntriesOf(left, event) && ListsIn(json).Keys == left.Keys
      ensures forall i: nat, j: nat :: !IsOursAt(json, event, i, j, configPath)
    {
      ListsInWritten(p.fields, left, event);
      StripLeavesNone(EntriesOf(p.hooks, event), configPath);
      assert forall i :: 0 <= i < |EntriesIn(json, event)| ==> HoldsNone(EntriesIn(json, event)[i], configPath);
    }
    ListsInWritten(p.fields, left, "");
  }

  // ---------------------------------------------------------------------------------------------
  // Installing.

  /** The hook the leg installs for an event: a command, the one built, under the timeout if one is set. */
  ghost predicate IsInstalled(h: Json, leg: Leg, event: string) {
    && h.Obj? && "type" in h.fields && h.fields["type"] == Str("command")
    && "command" in h.fields && h.fields["command"] == Str(HookCommand(leg.binPath, leg.configPath, event))
    && h.fields.Keys == {"type", "command"} + (if leg.timeout == 0 then {} else {"timeout"})
    && (leg.timeout != 0 ==> h.fields["timeout"] == Number(leg.timeoutText, true))
  }

  /** The entry it stands in: alone, for every tool. */
  ghost predicate IsInstalledEntry(m: Json, leg: Leg, event: string) {
    && m.Obj? && m.fields.Keys == {"matcher", "hooks"} && m.fields["matcher"] == Str("")
    && m.fields["hooks"].Arr? && |m.fields["hooks"].items| == 1
    && IsInstalled(m.fields["hooks"].items[0], leg, event)
  }

  lemma LegIsInstalled(leg: Leg, event: string)
    ensures IsInstalledEntry(LegEntry(leg, event), leg, event)
    ensures Inner(LegEntry(leg, event)) == Some([LegHook(leg, event)])
    ensures CommandOf(LegHook(leg, event)) == Some(HookCommand(leg.binPath, leg.configPath, event))
  {
  }

  /** After an installation every event named holds exactly one hook of the leg: the installed one, in an
      entry of its own at the end. Every other event holds what it held. */
  lemma MergeLeavesOne(file: File, events: seq<string>, leg: Leg, event: string)
    requires OwnsItsOwn(leg, events) && Merge(file, events, leg).Written?
    ensures var json := Merge(file, events, leg).json;
            var entries := EntriesIn(json, event);
            && (event in events ==>
                  && entries != [] && IsInstalledEntry(entries[|entries| - 1], leg, event)
                  && forall i: nat, j: nat ::
                       IsOursAt(json, event, i, j, leg.configPath) <==> i == |entries| - 1 && j == 0)
            && (event !in events && file.Holds? ==> entries == EntriesIn(file.json, event))
  {
    var p, json := ParseSettings(file), Merge(file, events, leg).json;
    MergedEntries(file, events, leg, event);
    if event in events {
      var i :| 0 <= i < |events| && events[i] == event;
      var kept := Strip(EntriesOf(p.hooks, event), leg.configPath);
      StripLeavesNone(EntriesOf(p.hooks, event), leg.configPath);
      LegIsInstalled(leg, event);
      forall i: nat, j: nat
        ensures IsOursAt(json, event, i, j, leg.configPath) <==> i == |kept| && j == 0
      {
        OnlyTheLast(kept, LegEntry(leg, event), LegHook(leg, event), leg.configPath, i, j);
      }
    } else {
      ParsedEntries(file, event);
    }
  }

  lemma MergedEntries(file: File, events: seq<string>, leg: Leg, event: string)
    requires OwnsItsOwn(leg, events) && Merge(file, events, leg).Written?
    ensures var hooks := ParseSettings(file).hooks;
            EntriesIn(Merge(file, events, leg).json, event) ==
            if event in events then Strip(EntriesOf(hooks, event), leg.configPath) + [LegEntry(leg, event)]
            else EntriesOf(hooks, event)
  {
    var p := ParseSettings(file);
    ListsInWritten(p.fields, MergeInto(p.hooks, events, leg), event);
    MergedSlot(p.hooks, events, leg, event);
  }

  lemma OnlyTheLast(kept: seq<Json>, last: Json, h: Json, configPath: string, i: nat, j: nat)
    requires forall k :: 0 <= k < |kept| ==> HoldsNone(kept[k], configPath)
    requires Inner(last) == Some([h]) && IsOurs(h, configPath)
    ensures var found := HookIn(kept + [last], i, j);
            found.Some? && IsOurs(found.value, configPath) <==> i == |kept| && j == 0
  {
  }

  // ---------------------------------------------------------------------------------------------
  // Whose command it is.

  /** A leg with a config path knows a report by it, under the present variable or the former one, quoted or
      bare; and nothing that does not report is anybody's. */
  lemma FormerIsOwned(before: string, after: string, configPath: string)
    requires configPath != "" && Contains(after, REPORT_MARKER)
    ensures Owns(before + "VIGIE_CONFIG=" + ShellQuote(configPath) + after, configPath)
    ensures Owns(before + "VIGIE_CONFIG=" + configPath + after, configPath)
    ensures Owns(before + "FLEET_CONFIG=" + ShellQuote(configPath) + after, configPath)
    ensures Owns(before + "FLEET_CONFIG=" + configPath + after, configPath)
  {
    MarkedIsOwned(before, 0, ShellQuote(configPath), after, configPath);
    MarkedIsOwned(before, 0, configPath, after, configPath);
    MarkedIsOwned(before, 1, ShellQuote(configPath), after, configPath);
    MarkedIsOwned(before, 1, configPath, after, configPath);
  }

  lemma MarkedIsOwned(before: string, k: nat, path: string, after: string, configPath: string)
    requires configPath != "" && Contains(after, REPORT_MARKER) && k < |LEG_MARKERS|
    requires path == configPath || path == ShellQuote(configPath)
    ensures Owns(before + LEG_MARKERS[k] + path + after, configPath)
  {
    var command := before + LEG_MARKERS[k] + path + after;
    assert command == before + (LEG_MARKERS[k] + path) + after;
    ContainsPart(before, LEG_MARKERS[k] + path, after);
    var i :| 0 <= i <= |after| && ContainsAt(after, REPORT_MARKER, i);
    assert after == after[..i] + REPORT_MARKER + after[i + |REPORT_MARKER|..];
    assert command == (before + LEG_MARKERS[k] + path + after[..i]) + REPORT_MARKER + after[i + |REPORT_MARKER|..];
    ContainsPart(before + LEG_MARKERS[k] + path + after[..i], REPORT_MARKER, after[i + |REPORT_MARKER|..]);
  }

  /** The production leg never takes another leg's command for its own; and another leg takes a production
      command for its own only if the binary's path or the event's name holds a marker. */
  lemma LegsAreApart(binPath: string, configPath: string, event: string)
    requires configPath != ""
    ensures !Owns(HookCommand(binPath, configPath, event), "")
    ensures Owns(HookCommand(binPath, "", event), configPath) ==> HoldsMarker(binPath) || HoldsMarker(event)
  {
    ProductionSparesLegs(binPath, configPath, event);
    LegSparesProduction(binPath, configPath, event);
  }

  lemma ProductionSparesLegs(binPath: string, configPath: string, event: string)
    requires configPath != ""
    ensures !Owns(HookCommand(binPath, configPath, event), "")
  {
    var command := HookCommand(binPath, configPath, event);
    var nothing: string := [];
    assert command == nothing + CONFIG_PREFIX + (ShellQuote(configPath) + (" " + (ShellQuote(binPath) + Tail(event))));
    ContainsPart(nothing, CONFIG_PREFIX, ShellQuote(configPath) + (" " + (ShellQuote(binPath) + Tail(event))));
  }

  lemma LegSparesProduction(binPath: string, configPath: string, event: string)
    requires configPath != ""
    ensures Owns(HookCommand(binPath, "", event), configPath) ==> HoldsMarker(binPath) || HoldsMarker(event)
  {
    var production := HookCommand(binPath, "", event);
    if Owns(production, configPath) {
      var k :| 0 <= k < |LEG_MARKERS| && (
        || Contains(production, LEG_MARKERS[k] + ShellQuote(configPath))
        || Contains(production, LEG_MARKERS[k] + configPath));
      var path := if Contains(production, LEG_MARKERS[k] + configPath) then configPath else ShellQuote(configPath);
      ContainsPrefix(production, LEG_MARKERS[k], path);
      BuiltIsOwned(binPath, "", event);
    }
  }

  lemma ContainsPrefix(s: string, m: string, rest: string)
    requires Contains(s, m + rest)
    ensures Contains(s, m)
  {
    var i :| 0 <= i <= |s| && ContainsAt(s, m + rest, i);
    assert s[i..i + |m|] == (m + rest)[..|m|];
    assert ContainsAt(s, m, i);
  }

  // ---------------------------------------------------------------------------------------------
  // Looking whether a leg is installed.

  ghost predicate HoldsSome(m: Json, configPath: string) {
    !HoldsNone(m, configPath)
  }

  /** Whether an entry holds one of the leg's hooks. */
  method MatcherHoldsLeg(m: Json, configPath: string) returns (holds: bool)
    ensures holds <==> HoldsSome(m, configPath)
  {
    var _, empty := StripLegFromMatcher(m, configPath);
    if empty {
      OthersMissing(m, configPath);
      return true;
    }
    if Inner(m).None? {
      return false;
    }
    var inner := Inner(m).value;
    for j := 0 to |inner|
      invariant forall k :: 0 <= k < j ==> !IsOurs(inner[k], configPath)
    {
      if IsOurs(inner[j], configPath) {
        return true;
      }
    }
    holds := false;
  }

  lemma OthersMissing(m: Json, configPath: string)
    requires StripEntry(m, configPath).None?
    ensures HoldsSome(m, configPath)
  {
    if HoldsNone(m, configPath) {
      UntouchedIsSame(m, configPath);
    }
  }

  /** Whether the leg is installed in a settings file that can be read: exactly when some hook of some entry
      is its own. */
  method HooksInstalled(file: File, configPath: string) returns (installed: Result<bool>)
    ensures installed.Err? <==> ParseSettings(file).Unreadable?
    ensures file.Holds? && installed.Ok? ==>
              (installed.value <==> exists event, i: nat, j: nat :: IsOursAt(file.json, event, i, j, configPath))
    ensures file.Blank? ==> installed == Ok(false)
  {
    var p := ParseSettings(file);
    if p.Unreadable? {
      return Err;
    }
    var rest := p.hooks.Keys;
    while rest != {}
      invariant rest <= p.hooks.Keys
      invariant forall event, i: nat :: event !in rest && i < |EntriesOf(p.hooks, event)| ==>
                  HoldsNone(EntriesOf(p.hooks, event)[i], configPath)
      decreases rest
    {
      var event :| event in rest;
      var entries := EntriesOf(p.hooks, event);
      for i := 0 to |entries|
        invariant forall k :: 0 <= k < i ==> HoldsNone(entries[k], configPath)
      {
        var holds := MatcherHoldsLeg(entries[i], configPath);
        if holds {
          ParsedEntries(file, event);
          var j: nat :| j < |Inner(entries[i]).value| && IsOurs(Inner(entries[i]).value[j], configPath);
          assert file.Holds? && IsOursAt(file.json, event, i, j, configPath);
          return Ok(true);
        }
      }
      rest := rest - {event};
    }
    if file.Holds? {
      forall event, i: nat, j: nat
        ensures !IsOursAt(file.json, event, i, j, configPath)
      {
        ParsedEntries(file, event);
      }
    }
    installed := Ok(false);
  }

  lemma ParsedEntries(file: File, event: string)
    requires ParseSettings(file).Parsed?
    ensures EntriesOf(ParseSettings(file).hooks, event) == if file.Holds? then EntriesIn(file.json, event) else []
  {
  }
}
