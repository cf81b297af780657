/**
 * The command builder: the selection state of the open command (one entry
 * per flag id and per option id), the operations the form calls to change
 * it, and the command line generated from it.
 */
module Builder {
  import opened Wrappers
  import opened Model
  import opened Text
  import Shell

  datatype FlagState = FlagState(id: string, selected: bool)

  datatype OptionState = OptionState(id: string, selected: bool, value: Option<Value>)

  type FlagStates = map<string, FlagState>

  type OptionStates = map<string, OptionState>

  /** `getFlagState`: a flag id with no entry reads as unselected. */
  function GetFlagState(fs: FlagStates, id: string): bool {
    id in fs && fs[id].selected
  }

  /** `getOptionState`: an option id with no entry reads as unselected with no value. */
  function GetOptionState(os: OptionStates, id: string): OptionState {
    if id in os then os[id] else OptionState(id, false, None)
  }

  // ---------------------------------------------------------------------
  // generatedCommand
  // ---------------------------------------------------------------------

  /** A value containing a space is wrapped in one pair of double quotes, without escaping. */
  function Quote(v: string): string {
    if ' ' in v then "\"" + v + "\"" else v
  }

  /** The literals of the selected flags, in declared order. */
  function FlagParts(flags: seq<Flag>, fs: FlagStates): seq<string>
    decreases |flags|
  {
    if flags == [] then []
    else (if GetFlagState(fs, flags[0].id) then [flags[0].flag] else []) + FlagParts(flags[1..], fs)
  }

  /** What one option contributes: nothing unless selected, then its literal and its value. */
  function OptionPart(o: OptionDef, st: OptionState): seq<string> {
    if !st.selected then []
    else
      (if o.option != "" then [o.option] else [])
      + (if o.parameter.Some? && Truthy(st.value) then [Quote(ValueText(st.value.value))] else [])
  }

  /** The option parts, in declared order. */
  function OptionParts(options: seq<OptionDef>, os: OptionStates): seq<string>
    decreases |options|
  {
    if options == [] then []
    else
      var last := options[|options| - 1];
      OptionParts(options[..|options| - 1], os) + OptionPart(last, GetOptionState(os, last.id))
  }

  /** The `parts` array: the name, then the flag parts, then the option parts. */
  function Parts(cmd: Command, fs: FlagStates, os: OptionStates): seq<string> {
    [cmd.name] + FlagParts(cmd.flags, fs) + OptionParts(cmd.options, os)
  }

  /** The generated command line; empty when no command is loaded. */
  function Generate(cmd: Option<Command>, fs: FlagStates, os: OptionStates): string {
    match cmd
    case None => ""
    case Some(c) => Join(Parts(c, fs, os))
  }

  /** `FlagParts` of a sequence with a given first flag. */
  lemma FlagPartsCons(f: Flag, rest: seq<Flag>, fs: FlagStates)
    ensures FlagParts([f] + rest, fs) == (if GetFlagState(fs, f.id) then [f.flag] else []) + FlagParts(rest, fs)
  {
    assert ([f] + rest)[0] == f && ([f] + rest)[1..] == rest;
  }

  lemma {:induction false} FlagPartsConcat(a: seq<Flag>, b: seq<Flag>, fs: FlagStates)
    ensures FlagParts(a + b, fs) == FlagParts(a, fs) + FlagParts(b, fs)
    decreases |a|
  {
    if a == [] {
      assert a + b == b;
    } else {
      FlagPartsConcat(a[1..], b, fs);
      assert a == [a[0]] + a[1..] && a + b == [a[0]] + (a[1..] + b);
      FlagPartsCons(a[0], a[1..], fs);
      FlagPartsCons(a[0], a[1..] + b, fs);
    }
  }

  /** One more option, as the builder's loop visits it, appends its part. */
  lemma OptionPartsStep(options: seq<OptionDef>, i: nat, os: OptionStates)
    requires i < |options|
    ensures OptionParts(options[..i + 1], os)
      == OptionParts(options[..i], os) + OptionPart(options[i], GetOptionState(os, options[i].id))
  {
    var prefix := options[..i + 1];
    assert prefix[..i] == options[..i] && prefix[i] == options[i];
  }

  /** The flag parts depend only on whether each declared flag reads as selected. */
  lemma {:induction false} FlagPartsAgree(flags: seq<Flag>, fs: FlagStates, gs: FlagStates)
    requires forall i :: 0 <= i < |flags| ==> GetFlagState(fs, flags[i].id) == GetFlagState(gs, flags[i].id)
    ensures FlagParts(flags, fs) == FlagParts(flags, gs)
    decreases |flags|
  {
    if flags != [] {
      FlagPartsAgree(flags[1..], fs, gs);
    }
  }

  /** The indices at or after `from` of the flags that read as selected, in increasing order. */
  function SelectedFlags(flags: seq<Flag>, fs: FlagStates, from: nat): (r: seq<nat>)
    requires from <= |flags|
    decreases |flags| - from
    ensures forall k :: 0 <= k < |r| ==> from <= r[k] < |flags| && GetFlagState(fs, flags[r[k]].id)
    ensures forall k, l :: 0 <= k < l < |r| ==> r[k] < r[l]
  {
    if from == |flags| then []
    else (if GetFlagState(fs, flags[from].id) then [from] else []) + SelectedFlags(flags, fs, from + 1)
  }

  /** No selected flag is missing from `SelectedFlags`. */
  lemma {:induction false} SelectedFlagsComplete(flags: seq<Flag>, fs: FlagStates, from: nat, j: nat)
    requires from <= j < |flags|
    requires GetFlagState(fs, flags[j].id)
    ensures j in SelectedFlags(flags, fs, from)
    decreases j - from
  {
    if from < j {
      SelectedFlagsComplete(flags, fs, from + 1, j);
    }
  }

  lemma {:induction false} FlagPartsFrom(flags: seq<Flag>, fs: FlagStates, from: nat)
    requires from <= |flags|
    ensures var idx := SelectedFlags(flags, fs, from);
      && |FlagParts(flags[from..], fs)| == |idx|
      && forall k :: 0 <= k < |idx| ==> FlagParts(flags[from..], fs)[k] == flags[idx[k]].flag
    decreases |flags| - from
  {
    if from < |flags| {
      FlagPartsFrom(flags, fs, from + 1);
      var tail := flags[from..];
      assert tail[0] == flags[from];
      assert tail[1..] == flags[from + 1..];
      var rest := SelectedFlags(flags, fs, from + 1);
      var restParts := FlagParts(flags[from + 1..], fs);
      if GetFlagState(fs, flags[from].id) {
        var parts := FlagParts(tail, fs);
        var idx := SelectedFlags(flags, fs, from);
        assert parts == [flags[from].flag] + restParts;
        assert idx == [from] + rest;
        forall k | 1 <= k < |idx|
          ensures parts[k] == flags[idx[k]].flag
        {
          assert parts[k] == restParts[k - 1];
          assert idx[k] == rest[k - 1];
        }
      } else {
        assert FlagParts(tail, fs) == restParts;
        assert SelectedFlags(flags, fs, from) == rest;
      }
    }
  }

  /**
   * The generated parts start with the name, followed by exactly the literals
   * of the selected flags in declared order, followed by the option parts.
   */
  lemma FlagsFollowName(cmd: Command, fs: FlagStates, os: OptionStates)
    ensures var p := Parts(cmd, fs, os);
      var idx := SelectedFlags(cmd.flags, fs, 0);
      && p[0] == cmd.name
      && |p| == 1 + |idx| + |OptionParts(cmd.options, os)|
      && (forall k :: 0 <= k < |idx| ==> p[1 + k] == cmd.flags[idx[k]].flag)
      && p[1 + |idx|..] == OptionParts(cmd.options, os)
  {
    FlagPartsFrom(cmd.flags, fs, 0);
    assert cmd.flags[0..] == cmd.flags;
  }

  /**
   * The command line begins with the name, and a space follows the name
   * exactly when anything else was emitted.
   */
  lemma GeneratedStartsWithName(cmd: Command, fs: FlagStates, os: OptionStates)
    ensures var r := Generate(Some(cmd), fs, os);
      && |r| >= |cmd.name|
      && r[..|cmd.name|] == cmd.name
      && (|r| == |cmd.name| <==> FlagParts(cmd.flags, fs) == [] && OptionParts(cmd.options, os) == [])
      && (|r| > |cmd.name| ==> r[|cmd.name|] == ' ')
  {
    var p := Parts(cmd, fs, os);
    if |p| > 1 {
      assert Join(p) == cmd.name + " " + Join(p[1..]);
    } else {
      assert FlagParts(cmd.flags, fs) == [] && OptionParts(cmd.options, os) == [];
    }
  }

  /** A selected option whose value is falsy (undefined, "" or 0) contributes only its literal. */
  lemma FalsyValueDropped(o: OptionDef, st: OptionState)
    requires !Truthy(st.value)
    ensures OptionPart(o, st) == if st.selected && o.option != "" then [o.option] else []
  {
  }

  /** Flags whose ids have no state entry read as unselected and emit nothing. */
  lemma {:induction false} UnstatedFlagsSilent(flags: seq<Flag>, fs: FlagStates)
    requires forall i :: 0 <= i < |flags| ==> flags[i].id !in fs
    ensures FlagParts(flags, fs) == []
    decreases |flags|
  {
    if flags != [] {
      assert !GetFlagState(fs, flags[0].id);
      UnstatedFlagsSilent(flags[1..], fs);
    }
  }

  /** Options whose ids have no state entry read as unselected and emit nothing. */
  lemma {:induction false} UnstatedOptionsSilent(options: seq<OptionDef>, os: OptionStates)
    requires forall i :: 0 <= i < |options| ==> options[i].id !in os
    ensures OptionParts(options, os) == []
    decreases |options|
  {
    if options != [] {
      var init := options[..|options| - 1];
      assert !GetOptionState(os, options[|options| - 1].id).selected;
      assert forall i :: 0 <= i < |init| ==> init[i] == options[i];
      UnstatedOptionsSilent(init, os);
    }
  }

  /** With empty state maps the generated command is the bare name. */
  lemma EmptyStatesGiveName(cmd: Command)
    ensures Generate(Some(cmd), map[], map[]) == cmd.name
  {
    UnstatedFlagsSilent(cmd.flags, map[]);
    UnstatedOptionsSilent(cmd.options, map[]);
  }

  // ---------------------------------------------------------------------
  // The generated line read back by a shell
  // ---------------------------------------------------------------------

  /** A literal that needs no quoting: non-empty, without spaces or double quotes. */
  predicate Bare(s: string) {
    s != "" && ' ' !in s && '"' !in s
  }

  /** A word `Quote` can carry: non-empty and without double quotes. */
  predicate Quotable(s: string) {
    s != "" && '"' !in s
  }

  /** A command whose name and literals are bare; an option literal may also be empty. */
  predicate ShellSafe(cmd: Command) {
    && Bare(cmd.name)
    && (forall i :: 0 <= i < |cmd.flags| ==> Bare(cmd.flags[i].flag))
    && (forall i :: 0 <= i < |cmd.options| ==> cmd.options[i].option == "" || Bare(cmd.options[i].option))
  }

  /** No text value in the selection contains a double quote. */
  predicate ValuesQuoteFree(os: OptionStates) {
    forall k :: k in os && os[k].value.Some? && os[k].value.value.Str? ==> '"' !in os[k].value.value.s
  }

  /** What one option means to a shell: its literal and its value, unquoted. */
  function OptionWords(o: OptionDef, st: OptionState): seq<string> {
    if !st.selected then []
    else
      (if o.option != "" then [o.option] else [])
      + (if o.parameter.Some? && Truthy(st.value) then [ValueText(st.value.value)] else [])
  }

  function OptionWordsAll(options: seq<OptionDef>, os: OptionStates): seq<string>
    decreases |options|
  {
    if options == [] then []
    else
      var last := options[|options| - 1];
      OptionWordsAll(options[..|options| - 1], os) + OptionWords(last, GetOptionState(os, last.id))
  }

  /** The argument vector the builder means: name, selected flags, selected options with their values. */
  function Argv(cmd: Command, fs: FlagStates, os: OptionStates): seq<string> {
    [cmd.name] + FlagParts(cmd.flags, fs) + OptionWordsAll(cmd.options, os)
  }

  function QuoteAll(ws: seq<string>): (r: seq<string>)
    decreases |ws|
  {
    if ws == [] then [] else [Quote(ws[0])] + QuoteAll(ws[1..])
  }

  lemma {:induction false} QuoteAllConcat(a: seq<string>, b: seq<string>)
    ensures QuoteAll(a + b) == QuoteAll(a) + QuoteAll(b)
    decreases |a|
  {
    if a == [] {
      assert a + b == b;
    } else {
      QuoteAllConcat(a[1..], b);
      assert (a + b)[0] == a[0] && (a + b)[1..] == a[1..] + b;
      assert QuoteAll(a + b) == [Quote(a[0])] + QuoteAll(a[1..] + b);
    }
  }

  /** Quoting leaves bare words alone. */
  lemma {:induction false} QuoteAllBare(ws: seq<string>)
    requires forall i :: 0 <= i < |ws| ==> Bare(ws[i])
    ensures QuoteAll(ws) == ws
    decreases |ws|
  {
    if ws != [] {
      QuoteAllBare(ws[1..]);
    }
  }

  lemma IntTextQuoteFree(n: int)
    ensures '"' !in IntToString(n)
  {
    var s := IntToString(n);
    IntToStringShape(n);
    assert forall k :: 0 <= k < |s| ==> s[k] != '"';
  }

  /** One option's part is its words, each quoted as the builder quotes values. */
  lemma OptionPartIsQuotedWords(o: OptionDef, st: OptionState)
    requires o.option == "" || Bare(o.option)
    requires st.value.Some? && st.value.value.Str? ==> '"' !in st.value.value.s
    ensures OptionPart(o, st) == QuoteAll(OptionWords(o, st))
    ensures forall i :: 0 <= i < |OptionWords(o, st)| ==> Quotable(OptionWords(o, st)[i])
  {
    var lit := if o.option != "" then [o.option] else [];
    var ws := OptionWords(o, st);
    if st.selected && o.parameter.Some? && Truthy(st.value) {
      var v := st.value.value;
      TruthyTextNonEmpty(st.value);
      if v.Num? {
        IntTextQuoteFree(v.n);
      }
      assert ws == lit + [ValueText(v)];
      QuoteAllConcat(lit, [ValueText(v)]);
      QuoteAllBare(lit);
    } else {
      QuoteAllBare(ws);
    }
  }

  lemma {:induction false} OptionPartsAreQuotedWords(options: seq<OptionDef>, os: OptionStates)
    requires forall i :: 0 <= i < |options| ==> options[i].option == "" || Bare(options[i].option)
    requires ValuesQuoteFree(os)
    ensures OptionParts(options, os) == QuoteAll(OptionWordsAll(options, os))
    ensures forall i :: 0 <= i < |OptionWordsAll(options, os)| ==> Quotable(OptionWordsAll(options, os)[i])
    decreases |options|
  {
    if options != [] {
      var init, o := options[..|options| - 1], options[|options| - 1];
      var st := GetOptionState(os, o.id);
      assert forall i :: 0 <= i < |init| ==> init[i] == options[i];
      OptionPartsAreQuotedWords(init, os);
      OptionPartIsQuotedWords(o, st);
      var done, ws := OptionWordsAll(init, os), OptionWords(o, st);
      QuoteAllConcat(done, ws);
      QuotableConcat(done, ws);
    }
  }

  lemma QuotableConcat(a: seq<string>, b: seq<string>)
    requires forall i :: 0 <= i < |a| ==> Quotable(a[i])
    requires forall i :: 0 <= i < |b| ==> Quotable(b[i])
    ensures forall i :: 0 <= i < |a + b| ==> Quotable((a + b)[i])
  {
    forall i | 0 <= i < |a + b|
      ensures Quotable((a + b)[i])
    {
      if i < |a| {
        assert (a + b)[i] == a[i];
      } else {
        assert (a + b)[i] == b[i - |a|];
      }
    }
  }

  /** A quotable word, quoted as the builder quotes values, is read back as itself. */
  lemma QuotedWordReadsBack(w: string, t: string)
    requires Quotable(w)
    requires t == [] || t[0] == ' '
    ensures Shell.Words(Quote(w) + t) == [w] + Shell.Words(t)
  {
    if ' ' in w {
      Shell.WordsQuoted(w, t);
    } else {
      Shell.WordsBare(w, t);
    }
  }

  /** Joining quoted quotable words with spaces and splitting the result again gives the words back. */
  lemma {:induction false} JoinQuotedReadsBack(ws: seq<string>)
    requires forall i :: 0 <= i < |ws| ==> Quotable(ws[i])
    ensures Shell.Words(Join(QuoteAll(ws))) == ws
    decreases |ws|
  {
    if |ws| == 1 {
      QuotedWordReadsBack(ws[0], []);
      assert Quote(ws[0]) + [] == Quote(ws[0]);
    } else if |ws| > 1 {
      var q := QuoteAll(ws);
      assert q[1..] == QuoteAll(ws[1..]);
      var rest := Join(q[1..]);
      JoinQuotedReadsBack(ws[1..]);
      QuotedWordReadsBack(ws[0], " " + rest);
      Shell.WordsAfterSpace(rest);
      assert Join(q) == Quote(ws[0]) + (" " + rest);
      assert ws == [ws[0]] + ws[1..];
    }
  }

  /** Every word of the argument vector can be quoted and read back. */
  lemma ArgvQuotable(cmd: Command, fs: FlagStates, os: OptionStates)
    requires ShellSafe(cmd)
    requires ValuesQuoteFree(os)
    ensures forall i :: 0 <= i < |Argv(cmd, fs, os)| ==> Quotable(Argv(cmd, fs, os)[i])
  {
    var flagParts := FlagParts(cmd.flags, fs);
    var optionWords := OptionWordsAll(cmd.options, os);
    FlagPartsFrom(cmd.flags, fs, 0);
    assert cmd.flags[0..] == cmd.flags;
    assert forall k :: 0 <= k < |flagParts| ==> Bare(flagParts[k]);
    OptionPartsAreQuotedWords(cmd.options, os);
    var head := [cmd.name] + flagParts;
    assert forall k :: 0 <= k < |head| ==> Quotable(head[k]);
    assert Argv(cmd, fs, os) == head + optionWords;
  }

  /** The generated parts are the argument vector with its values quoted. */
  lemma PartsAreQuotedArgv(cmd: Command, fs: FlagStates, os: OptionStates)
    requires ShellSafe(cmd)
    requires ValuesQuoteFree(os)
    ensures Parts(cmd, fs, os) == QuoteAll(Argv(cmd, fs, os))
  {
    var flagParts := FlagParts(cmd.flags, fs);
    FlagPartsFrom(cmd.flags, fs, 0);
    assert cmd.flags[0..] == cmd.flags;
    var head := [cmd.name] + flagParts;
    assert forall k :: 0 <= k < |head| ==> Bare(head[k]);
    QuoteAllBare(head);
    OptionPartsAreQuotedWords(cmd.options, os);
    QuoteAllConcat(head, OptionWordsAll(cmd.options, os));
  }

  /**
   * For a command whose name and literals need no quoting and a selection
   * without double quotes in its text values, a shell splits the generated
   * command line into exactly the intended argument vector: the name, the
   * selected flags' literals, and for each selected option its literal and
   * its (unquoted) truthy value.
   */
  lemma GeneratedCommandReadsAsArgv(cmd: Command, fs: FlagStates, os: OptionStates)
    requires ShellSafe(cmd)
    requires ValuesQuoteFree(os)
    ensures Shell.Words(Generate(Some(cmd), fs, os)) == Argv(cmd, fs, os)
  {
    PartsAreQuotedArgv(cmd, fs, os);
    ArgvQuotable(cmd, fs, os);
    JoinQuotedReadsBack(Argv(cmd, fs, os));
  }

  // ---------------------------------------------------------------------
  // Selection state
  // ---------------------------------------------------------------------

  /** `flag.selected || false`. */
  function FlagDefault(f: Flag): FlagState {
    FlagState(f.id, f.selected.GetOr(false))
  }

  /** `option.selected || false` and `option.parameter?.defaultValue`. */
  function OptionDefault(o: OptionDef): OptionState {
    OptionState(o.id, o.selected.GetOr(false), if o.parameter.Some? then o.parameter.value.defaultValue else None)
  }

  function FlagIds(flags: seq<Flag>): set<string> {
    set i | 0 <= i < |flags| :: flags[i].id
  }

  function OptionIds(options: seq<OptionDef>): set<string> {
    set i | 0 <= i < |options| :: options[i].id
  }

  /** No later flag shares the id of flag `i`. */
  predicate LastFlagWithId(flags: seq<Flag>, i: nat)
    requires i < |flags|
  {
    forall j :: i < j < |flags| ==> flags[j].id != flags[i].id
  }

  predicate LastOptionWithId(options: seq<OptionDef>, i: nat)
    requires i < |options|
  {
    forall j :: i < j < |options| ==> options[j].id != options[i].id
  }

  /**
   * The flag map `initializeStates` builds: entries set in declared order, so
   * the last flag with a given id supplies its entry.
   */
  function DefaultFlagStates(flags: seq<Flag>): FlagStates
    decreases |flags|
  {
    if flags == [] then map[]
    else
      var last := flags[|flags| - 1];
      DefaultFlagStates(flags[..|flags| - 1])[last.id := FlagDefault(last)]
  }

  /** The option map `initializeStates` builds, in the same way. */
  function DefaultOptionStates(options: seq<OptionDef>): OptionStates
    decreases |options|
  {
    if options == [] then map[]
    else
      var last := options[|options| - 1];
      DefaultOptionStates(options[..|options| - 1])[last.id := OptionDefault(last)]
  }

  lemma FlagIdsSnoc(flags: seq<Flag>)
    requires flags != []
    ensures FlagIds(flags) == FlagIds(flags[..|flags| - 1]) + {flags[|flags| - 1].id}
  {
    var init := flags[..|flags| - 1];
    forall x | x in FlagIds(flags)
      ensures x in FlagIds(init) + {flags[|flags| - 1].id}
    {
      var i :| 0 <= i < |flags| && flags[i].id == x;
      if i < |flags| - 1 {
        assert init[i] == flags[i];
      }
    }
    forall x | x in FlagIds(init)
      ensures x in FlagIds(flags)
    {
      var i :| 0 <= i < |init| && init[i].id == x;
      assert flags[i] == init[i];
    }
  }

  lemma OptionIdsSnoc(options: seq<OptionDef>)
    requires options != []
    ensures OptionIds(options) == OptionIds(options[..|options| - 1]) + {options[|options| - 1].id}
  {
    var init := options[..|options| - 1];
    forall x | x in OptionIds(options)
      ensures x in OptionIds(init) + {options[|options| - 1].id}
    {
      var i :| 0 <= i < |options| && options[i].id == x;
      if i < |options| - 1 {
        assert init[i] == options[i];
      }
    }
    forall x | x in OptionIds(init)
      ensures x in OptionIds(options)
    {
      var i :| 0 <= i < |init| && init[i].id == x;
      assert options[i] == init[i];
    }
  }

  /** The default flag map has one entry per declared id, filed under its own id. */
  lemma {:induction false} DefaultFlagStatesCover(flags: seq<Flag>)
    ensures DefaultFlagStates(flags).Keys == FlagIds(flags)
    ensures forall k :: k in DefaultFlagStates(flags) ==> DefaultFlagStates(flags)[k].id == k
    decreases |flags|
  {
    if flags != [] {
      DefaultFlagStatesCover(flags[..|flags| - 1]);
      FlagIdsSnoc(flags);
    }
  }

  /** The default option map has one entry per declared id, filed under its own id. */
  lemma {:induction false} DefaultOptionStatesCover(options: seq<OptionDef>)
    ensures DefaultOptionStates(options).Keys == OptionIds(options)
    ensures forall k :: k in DefaultOptionStates(options) ==> DefaultOptionStates(options)[k].id == k
    decreases |options|
  {
    if options != [] {
      DefaultOptionStatesCover(options[..|options| - 1]);
      OptionIdsSnoc(options);
    }
  }

  /** Each id's entry in the default flag map is the default of the last flag with that id. */
  lemma {:induction false} DefaultFlagStatesLast(flags: seq<Flag>, i: nat)
    requires i < |flags| && LastFlagWithId(flags, i)
    ensures flags[i].id in DefaultFlagStates(flags)
    ensures DefaultFlagStates(flags)[flags[i].id] == FlagDefault(flags[i])
    decreases |flags|
  {
    var init := flags[..|flags| - 1];
    if i < |flags| - 1 {
      assert init[i] == flags[i];
      assert LastFlagWithId(init, i);
      DefaultFlagStatesLast(init, i);
    }
  }

  /** Each id's entry in the default option map is the default of the last option with that id. */
  lemma {:induction false} DefaultOptionStatesLast(options: seq<OptionDef>, i: nat)
    requires i < |options| && LastOptionWithId(options, i)
    ensures options[i].id in DefaultOptionStates(options)
    ensures DefaultOptionStates(options)[options[i].id] == OptionDefault(options[i])
    decreases |options|
  {
    var init := options[..|options| - 1];
    if i < |options| - 1 {
      assert init[i] == options[i];
      assert LastOptionWithId(init, i);
      DefaultOptionStatesLast(init, i);
    }
  }

  /** `toggleFlag`: flips the named entry's `selected`; an unknown id changes nothing. */
  function ToggledFlags(fs: FlagStates, id: string): (r: FlagStates)
    ensures r.Keys == fs.Keys
    ensures forall k :: k in fs && k != id ==> r[k] == fs[k]
    ensures id in fs ==> r[id].id == fs[id].id && r[id].selected == !fs[id].selected
    ensures id !in fs ==> r == fs
  {
    if id in fs then fs[id := fs[id].(selected := !fs[id].selected)] else fs
  }

  /** `toggleOption`: flips the named entry's `selected` and keeps its value. */
  function ToggledOptions(os: OptionStates, id: string): (r: OptionStates)
    ensures r.Keys == os.Keys
    ensures forall k :: k in os && k != id ==> r[k] == os[k]
    ensures id in os ==> r[id].id == os[id].id && r[id].value == os[id].value && r[id].selected == !os[id].selected
    ensures id !in os ==> r == os
  {
    if id in os then os[id := os[id].(selected := !os[id].selected)] else os
  }

  /** `updateOptionValue`: replaces the named entry's value and keeps `selected`. */
  function UpdatedValue(os: OptionStates, id: string, v: Value): (r: OptionStates)
    ensures r.Keys == os.Keys
    ensures forall k :: k in os && k != id ==> r[k] == os[k]
    ensures id in os ==> r[id].id == os[id].id && r[id].selected == os[id].selected && r[id].value == Some(v)
    ensures id !in os ==> r == os
  {
    if id in os then os[id := os[id].(value := Some(v))] else os
  }

  /** The flag map after the presets of an example are applied over `base`. */
  function PresetFlags(base: FlagStates, presets: map<string, Preset>): (r: FlagStates)
    ensures r.Keys == base.Keys
  {
    map k | k in base :: if k in presets then FlagState(k, presets[k].selected) else base[k]
  }

  /** The option map after the presets of an example are applied over `base`. */
  function PresetOptions(base: OptionStates, presets: map<string, Preset>): (r: OptionStates)
    ensures r.Keys == base.Keys
  {
    map k | k in base :: if k in presets then OptionState(k, presets[k].selected, presets[k].value) else base[k]
  }

  /** With none of the presets applied yet, both maps are as they were. */
  lemma PresetsNone(fs: FlagStates, os: OptionStates, presets: map<string, Preset>)
    ensures PresetFlags(fs, presets - presets.Keys) == fs
    ensures PresetOptions(os, presets - presets.Keys) == os
  {
    assert presets - presets.Keys == map[];
  }

  /** Applying one more preset overwrites at most that key's entry in each map. */
  lemma PresetsAdd(fs: FlagStates, os: OptionStates, presets: map<string, Preset>, pending: set<string>, key: string)
    requires key in pending && pending <= presets.Keys
    ensures var before, after := presets - pending, presets - (pending - {key});
      && PresetFlags(fs, after)
         == (if key in fs then PresetFlags(fs, before)[key := FlagState(key, presets[key].selected)] else PresetFlags(fs, before))
      && PresetOptions(os, after)
         == (if key in os then PresetOptions(os, before)[key := OptionState(key, presets[key].selected, presets[key].value)]
             else PresetOptions(os, before))
  {
    var before, after := presets - pending, presets - (pending - {key});
    assert after == before[key := presets[key]];
  }

  /** Toggling the same flag twice restores the state. */
  lemma ToggleFlagTwice(fs: FlagStates, id: string)
    ensures ToggledFlags(ToggledFlags(fs, id), id) == fs
  {
  }

  /** Toggling the same option twice restores the state. */
  lemma ToggleOptionTwice(os: OptionStates, id: string)
    ensures ToggledOptions(ToggledOptions(os, id), id) == os
  {
  }

  /** Toggling an id that none of `flags` has leaves their parts as they were. */
  lemma ToggleLeavesOtherFlags(flags: seq<Flag>, fs: FlagStates, id: string)
    requires forall k :: 0 <= k < |flags| ==> flags[k].id != id
    ensures FlagParts(flags, ToggledFlags(fs, id)) == FlagParts(flags, fs)
  {
    FlagPartsAgree(flags, ToggledFlags(fs, id), fs);
  }

  /**
   * With distinct flag ids, toggling flag `i` adds or removes exactly its
   * literal at its declared place among the flag parts.
   */
  lemma ToggleFlagEffect(flags: seq<Flag>, fs: FlagStates, i: nat)
    requires forall a, b :: 0 <= a < b < |flags| ==> flags[a].id != flags[b].id
    requires i < |flags| && flags[i].id in fs
    ensures var id := flags[i].id;
      FlagParts(flags, ToggledFlags(fs, id))
      == FlagParts(flags[..i], fs) + (if GetFlagState(fs, id) then [] else [flags[i].flag]) + FlagParts(flags[i + 1..], fs)
  {
    var id := flags[i].id;
    var gs := ToggledFlags(fs, id);
    var pre, post := flags[..i], flags[i + 1..];
    assert flags == pre + ([flags[i]] + post);
    FlagPartsConcat(pre, [flags[i]] + post, gs);
    FlagPartsCons(flags[i], post, gs);
    var lit := if GetFlagState(fs, id) then [] else [flags[i].flag];
    assert GetFlagState(gs, id) == !GetFlagState(fs, id);
    assert FlagParts([flags[i]] + post, gs) == lit + FlagParts(post, gs);
    forall k | 0 <= k < |pre|
      ensures pre[k].id != id
    {
      assert pre[k] == flags[k];
    }
    forall k | 0 <= k < |post|
      ensures post[k].id != id
    {
      assert post[k] == flags[i + 1 + k];
    }
    ToggleLeavesOtherFlags(pre, fs, id);
    ToggleLeavesOtherFlags(post, fs, id);
  }

  /**
   * After an example is applied to a command with distinct ids, each flag and
   * each option reads as its preset when it has one and as its default
   * otherwise; the state before the example plays no part.
   */
  lemma ApplyExampleEntries(cmd: Command, presets: map<string, Preset>)
    requires forall a, b :: 0 <= a < b < |cmd.flags| ==> cmd.flags[a].id != cmd.flags[b].id
    requires forall a, b :: 0 <= a < b < |cmd.options| ==> cmd.options[a].id != cmd.options[b].id
    ensures forall i :: 0 <= i < |cmd.flags| ==>
      var id, m := cmd.flags[i].id, PresetFlags(DefaultFlagStates(cmd.flags), presets);
      id in m && m[id] == if id in presets then FlagState(id, presets[id].selected) else FlagDefault(cmd.flags[i])
    ensures forall i :: 0 <= i < |cmd.options| ==>
      var id, m := cmd.options[i].id, PresetOptions(DefaultOptionStates(cmd.options), presets);
      id in m && m[id] == if id in presets then OptionState(id, presets[id].selected, presets[id].value)
                          else OptionDefault(cmd.options[i])
  {
    forall i | 0 <= i < |cmd.flags|
      ensures cmd.flags[i].id in DefaultFlagStates(cmd.flags)
      ensures DefaultFlagStates(cmd.flags)[cmd.flags[i].id] == FlagDefault(cmd.flags[i])
    {
      DefaultFlagStatesLast(cmd.flags, i);
    }
    forall i | 0 <= i < |cmd.options|
      ensures cmd.options[i].id in DefaultOptionStates(cmd.options)
      ensures DefaultOptionStates(cmd.options)[cmd.options[i].id] == OptionDefault(cmd.options[i])
    {
      DefaultOptionStatesLast(cmd.options, i);
    }
  }

  /**
   * The `forEach` callback of `generatedCommand` for one option: what it
   * pushes onto the parts is the option's part.
   */
  method OptionPush(option: OptionDef, state: OptionState) returns (pushed: seq<string>)
    ensures pushed == OptionPart(option, state)
  {
    pushed := [];
    if !state.selected {
      return;
    }
    if option.option != "" {
      pushed := pushed + [option.option];
    }
    if option.parameter.Some? && Truthy(state.value) {
      var value := ValueText(state.value.value);
      var quotedValue := Quote(value);
      pushed := pushed + [quotedValue];
    }
  }

  /** The parts after one more option are the parts before it followed by its part. */
  lemma PushedExtends(start: seq<string>, options: seq<OptionDef>, i: nat, os: OptionStates)
    requires i < |options|
    ensures start + OptionParts(options[..i], os) + OptionPart(options[i], GetOptionState(os, options[i].id))
      == start + OptionParts(options[..i + 1], os)
  {
    OptionPartsStep(options, i, os);
  }

  /** The `forEach` over the options of `generatedCommand`: each option's part, in declared order. */
  method PushOptions(start: seq<string>, options: seq<OptionDef>, os: OptionStates) returns (parts: seq<string>)
    ensures parts == start + OptionParts(options, os)
  {
    parts := start;
    var i := 0;
    while i < |options|
      invariant 0 <= i <= |options|
      invariant parts == start + OptionParts(options[..i], os)
    {
      var option := options[i];
      var state := GetOptionState(os, option.id);
      var pushed := OptionPush(option, state);
      PushedExtends(start, options, i, os);
      parts := parts + pushed;
      i := i + 1;
    }
    assert options[..i] == options;
  }

  /** The maps hold exactly one entry per declared id, filed under its own id. */
  predicate StatesCover(cmd: Command, fs: FlagStates, os: OptionStates) {
    && fs.Keys == FlagIds(cmd.flags)
    && os.Keys == OptionIds(cmd.options)
    && (forall k :: k in fs ==> fs[k].id == k)
    && (forall k :: k in os ==> os[k].id == k)
  }

  class CommandBuilderComponent {
    var command: Option<Command>
    var flagStates: FlagStates
    var optionStates: OptionStates

    ghost predicate Valid()
      reads this
    {
      command.Some? ==> StatesCover(command.value, flagStates, optionStates)
    }

    constructor ()
      ensures Valid()
      ensures command == None && flagStates == map[] && optionStates == map[]
    {
      command := None;
      flagStates := map[];
      optionStates := map[];
    }

    /** Route handling: the looked-up command is shown, and its state initialised when it exists. */
    method LoadCommand(cmd: Option<Command>)
      requires Valid()
      modifies this
      ensures Valid()
      ensures command == cmd
      ensures cmd.Some? ==>
        flagStates == DefaultFlagStates(cmd.value.flags) && optionStates == DefaultOptionStates(cmd.value.options)
      ensures cmd.None? ==> flagStates == old(flagStates) && optionStates == old(optionStates)
    {
      command := cmd;
      if cmd.Some? {
        InitializeStates(cmd.value);
      }
    }

    /** `initializeStates`: both maps rebuilt from the declared defaults, discarding earlier changes. */
    method InitializeStates(cmd: Command)
      modifies this
      ensures command == old(command)
      ensures flagStates == DefaultFlagStates(cmd.flags)
      ensures optionStates == DefaultOptionStates(cmd.options)
      ensures StatesCover(cmd, flagStates, optionStates)
    {
      DefaultFlagStatesCover(cmd.flags);
      DefaultOptionStatesCover(cmd.options);
      var flagMap: FlagStates := map[];
      var i := 0;
      while i < |cmd.flags|
        invariant 0 <= i <= |cmd.flags|
        invariant flagMap == DefaultFlagStates(cmd.flags[..i])
      {
        var flag := cmd.flags[i];
        assert cmd.flags[..i + 1][..i] == cmd.flags[..i];
        flagMap := flagMap[flag.id := FlagState(flag.id, flag.selected.GetOr(false))];
        i := i + 1;
      }
      assert cmd.flags[..i] == cmd.flags;
      flagStates := flagMap;

      var optionMap: OptionStates := map[];
      var j := 0;
      while j < |cmd.options|
        invariant 0 <= j <= |cmd.options|
        invariant optionMap == DefaultOptionStates(cmd.options[..j])
      {
        var option := cmd.options[j];
        assert cmd.options[..j + 1][..j] == cmd.options[..j];
        var value := if option.parameter.Some? then option.parameter.value.defaultValue else None;
        optionMap := optionMap[option.id := OptionState(option.id, option.selected.GetOr(false), value)];
        j := j + 1;
      }
      assert cmd.options[..j] == cmd.options;
      optionStates := optionMap;
    }

    method ToggleFlag(id: string)
      requires Valid()
      modifies this
      ensures Valid()
      ensures flagStates == ToggledFlags(old(flagStates), id)
      ensures command == old(command) && optionStates == old(optionStates)
    {
      var newMap := flagStates;
      if id in newMap {
        var current := newMap[id];
        newMap := newMap[id := current.(selected := !current.selected)];
        flagStates := newMap;
      }
    }

    method ToggleOption(id: string)
      requires Valid()
      modifies this
      ensures Valid()
      ensures optionStates == ToggledOptions(old(optionStates), id)
      ensures command == old(command) && flagStates == old(flagStates)
    {
      var newMap := optionStates;
      if id in newMap {
        var current := newMap[id];
        newMap := newMap[id := current.(selected := !current.selected)];
        optionStates := newMap;
      }
    }

    /** `updateOptionValue`, given the already converted input value. */
    method UpdateOptionValue(id: string, value: Value)
      requires Valid()
      modifies this
      ensures Valid()
      ensures optionStates == UpdatedValue(old(optionStates), id, value)
      ensures command == old(command) && flagStates == old(flagStates)
    {
      var newMap := optionStates;
      if id in newMap {
        var current := newMap[id];
        newMap := newMap[id := current.(value := Some(value))];
        optionStates := newMap;
      }
    }

    /**
     * `applyExample`: back to the defaults, then every preset whose key is a
     * flag id or an option id overwrites that entry.
     */
    method ApplyExample(example: Example)
      requires Valid()
      modifies this
      ensures Valid()
      ensures command == old(command)
      ensures command.None? ==> flagStates == old(flagStates) && optionStates == old(optionStates)
      ensures command.Some? ==>
        && flagStates == PresetFlags(DefaultFlagStates(command.value.flags), example.presets)
        && optionStates == PresetOptions(DefaultOptionStates(command.value.options), example.presets)
    {
      if command.None? {
        return;
      }
      var cmd := command.value;
      InitializeStates(cmd);

      var flagMap := flagStates;
      var optionMap := optionStates;
      ghost var flagBase, optionBase := flagMap, optionMap;
      var keys := example.presets.Keys;
      PresetsNone(flagBase, optionBase, example.presets);
      while keys != {}
        invariant command == Some(cmd)
        invariant keys <= example.presets.Keys
        invariant flagMap == PresetFlags(flagBase, example.presets - keys)
        invariant optionMap == PresetOptions(optionBase, example.presets - keys)
        decreases keys
      {
        var key :| key in keys;
        var preset := example.presets[key];
        PresetsAdd(flagBase, optionBase, example.presets, keys, key);
        if key in flagMap {
          flagMap := flagMap[key := FlagState(key, preset.selected)];
        }
        if key in optionMap {
          optionMap := optionMap[key := OptionState(key, preset.selected, preset.value)];
        }
        keys := keys - {key};
      }
      assert example.presets - keys == example.presets;
      flagStates := flagMap;
      optionStates := optionMap;
    }

    /** `resetCommand`: the loaded command's defaults again. */
    method ResetCommand()
      requires Valid()
      modifies this
      ensures Valid()
      ensures command == old(command)
      ensures command.None? ==> flagStates == old(flagStates) && optionStates == old(optionStates)
      ensures command.Some? ==>
        flagStates == DefaultFlagStates(command.value.flags) && optionStates == DefaultOptionStates(command.value.options)
    {
      if command.Some? {
        InitializeStates(command.value);
      }
    }

    /** `generatedCommand`: assembles the parts and joins them with single spaces. */
    method GeneratedCommand() returns (r: string)
      ensures command.None? ==> r == ""
      ensures r == Generate(command, flagStates, optionStates)
    {
      if command.None? {
        return "";
      }
      var cmd := command.value;
      var parts := [cmd.name];
      parts := parts + FlagParts(cmd.flags, flagStates);
      parts := PushOptions(parts, cmd.options, optionStates);
      r := Join(parts);
    }
  }
}
