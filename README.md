# Command builder — a Dafny model

Command Builder is a single-page web application. The user picks a command-line tool, for example `ls`, from a catalogue. They tick its flags and options and type option values. The page shows the command line assembled from those choices, which can be copied and saved to a per-command history in the browser's local storage.

This project models three parts of that application and proves properties about them:

- **The command builder** (`module Builder`, `command_builder.dfy`) holds the selection state of the open command. It has one entry per flag id and one per option id, kept in two maps. It also models the operations the form calls to change that state:
  - initialise from the declared defaults,
  - toggle a flag or an option,
  - update an option's value,
  - apply an example's presets,
  - reset.

  It also models the generated command line. That line is the name, then the literals of the selected flags in declared order, then each selected option's literal and its value. A value is wrapped in double quotes when it contains a space. The parts are joined by single spaces. The component is a `class` whose fields are the loaded command and the two state maps. Its methods run the same `forEach` loops as the source and are proved against specification functions (`Generate`, `DefaultFlagStates`, `PresetFlags`, …).
- **The command service** (`module Service`, `command_service.dfy`) covers:
  - a flat lookup of a command by id;
  - the command history, a map from `"command-history-" + id` to a list of entries, newest first and capped at 20;
  - saving to, reading and clearing that history, with the off-browser case and a throwing storage as explicit inputs.
- **The history panel** (`module History`, `command_history.dfy`) loads and clears the history of its command. It labels each entry with its age: "Just now", then "n minute(s) ago", "n hour(s) ago" and "n day(s) ago". From one week on it shows the absolute date.

Supporting modules:

- `Model` (`command_model.dfy`) holds the catalogue's data types. The source's `Option` interface is called `OptionDef`, so it does not clash with `Wrappers.Option`. The `label` field is called `labelText`. JavaScript truthiness of a `string | number` value is also defined here.
- `Text` (`text.dfy`) holds the decimal rendering of integers that template literals and `toString()` produce, its inverse, and `join(' ')`.
- `Shell` (`shell.dfy`) is a reference word splitter. Words are separated by spaces, and a double-quoted word runs to the next double quote. The main theorem, `Builder.GeneratedCommandReadsAsArgv`, says that under this reading, for a non-empty name and non-empty flag literals, option literals that are empty or non-empty, all of them without spaces or double quotes, and values without double quotes, the generated line splits back into exactly:
  - the name,
  - the selected flag literals,
  - the non-empty option literals,
  - the unquoted values.

Inputs the browser supplies are parameters of the model:

- the current time (`now`);
- whether the code runs in a browser (`isBrowser`);
- whether a storage write or removal throws (`writeFails`, `removeFails`);
- the outcome of fetching the catalogue (`FetchOutcome`).

## Model

| member | source | states |
|---|---|---|
| Builder.CommandBuilderComponent.GeneratedCommand | src/app/components/command-builder/command-builder.component.ts:250-280 | The loop over the options builds exactly the specification `Generate` of the current state; with no command loaded the result is the empty string. |
| Builder.PushOptions | src/app/components/command-builder/command-builder.component.ts:263-277 | The loop over the options appends exactly their parts, in declared order, to the parts so far. |
| Builder.FlagsFollowName | src/app/components/command-builder/command-builder.component.ts:254-260 | The parts start with the command name, followed by exactly the literals of the selected flags in declared order (indices from `SelectedFlags`), followed by the option parts. |
| Builder.SelectedFlags | src/app/components/command-builder/command-builder.component.ts:257-259 | The filtered flags are in range, selected, and in strictly increasing declared order. |
| Builder.SelectedFlagsComplete | src/app/components/command-builder/command-builder.component.ts:257-259 | Every selected flag is among the filtered ones (the filter drops no selected flag). |
| Builder.GeneratedStartsWithName | src/app/components/command-builder/command-builder.component.ts:254-279 | The line begins with the name; it is exactly the name iff no flag or option part was emitted, and otherwise a space follows the name. |
| Builder.FalsyValueDropped | src/app/components/command-builder/command-builder.component.ts:263-276 | A selected option whose value is undefined, "" or 0 contributes only its literal (if non-empty); an unselected one contributes nothing. |
| Builder.GeneratedCommandReadsAsArgv | src/app/components/command-builder/command-builder.component.ts:250-280 | For a non-empty name, non-empty flag literals, option literals that are empty or non-empty, all free of spaces and double quotes, and values free of double quotes, splitting the generated line into shell words gives back name, selected flag literals, option literals and raw values (quoting at lines 273-274 is undone exactly). |
| Builder.PartsAreQuotedArgv | src/app/components/command-builder/command-builder.component.ts:254-277 | Under the same conditions the parts are the argument words with only the values containing spaces quoted. |
| Builder.JoinQuotedReadsBack | src/app/components/command-builder/command-builder.component.ts:272-279 | Joining quoted non-empty quote-free words with spaces and splitting the result again returns the words. |
| Builder.UnstatedFlagsSilent | src/app/components/command-builder/command-builder.component.ts:334-336 | A flag id without a state entry reads as unselected, so such flags emit nothing. |
| Builder.UnstatedOptionsSilent | src/app/components/command-builder/command-builder.component.ts:347-349 | An option id without a state entry reads as unselected with no value, so such options emit nothing. |
| Builder.EmptyStatesGiveName | src/app/components/command-builder/command-builder.component.ts:250-280 | With empty state maps the generated line is the command name alone. |
| Builder.DefaultFlagStatesCover | src/app/components/command-builder/command-builder.component.ts:314-321 | The initial flag map has exactly the declared flag ids as keys, each entry filed under its own id. |
| Builder.DefaultOptionStatesCover | src/app/components/command-builder/command-builder.component.ts:323-331 | The initial option map has exactly the declared option ids as keys, each entry filed under its own id. |
| Builder.DefaultFlagStatesLast | src/app/components/command-builder/command-builder.component.ts:315-320 | The entry for an id is the default of the last flag declared with that id (`selected || false`). |
| Builder.DefaultOptionStatesLast | src/app/components/command-builder/command-builder.component.ts:324-330 | The entry for an id is the default of the last option declared with that id: its `selected || false` and the parameter's default value. |
| Builder.ToggledFlags | src/app/components/command-builder/command-builder.component.ts:338-345 | Same keys; only the toggled entry's `selected` flips and its id stays; other entries are unchanged; an unknown id changes nothing. |
| Builder.ToggledOptions | src/app/components/command-builder/command-builder.component.ts:351-358 | Same keys; only the toggled entry's `selected` flips, its id and value stay; an unknown id changes nothing. |
| Builder.UpdatedValue | src/app/components/command-builder/command-builder.component.ts:360-370 | Same keys; only the entry's value is replaced, its id and selection stay; an unknown id changes nothing. |
| Builder.ToggleFlagTwice | src/app/components/command-builder/command-builder.component.ts:338-345 | Toggling a flag twice restores the map. |
| Builder.ToggleOptionTwice | src/app/components/command-builder/command-builder.component.ts:351-358 | Toggling an option twice restores the map. |
| Builder.ToggleLeavesOtherFlags | src/app/components/command-builder/command-builder.component.ts:338-345 | Toggling an id leaves the parts of flags with other ids unchanged. |
| Builder.ToggleFlagEffect | src/app/components/command-builder/command-builder.component.ts:338-345 | With distinct flag ids, toggling a flag adds its literal at its declared position if it was off and removes it if it was on; the other flag parts are unchanged. |
| Builder.PresetFlags | src/app/components/command-builder/command-builder.component.ts:383-390 | Applying presets never adds or removes a flag key. |
| Builder.PresetOptions | src/app/components/command-builder/command-builder.component.ts:391-398 | Applying presets never adds or removes an option key. |
| Builder.PresetsAdd | src/app/components/command-builder/command-builder.component.ts:383-399 | Handling one more preset key, in whatever order the keys come, overwrites exactly that key's flag and option entries. |
| Builder.ApplyExampleEntries | src/app/components/command-builder/command-builder.component.ts:372-403 | After an example is applied, each flag/option reads as its preset if it has one and as its declared default otherwise; the earlier state plays no part. |
| Builder.CommandBuilderComponent.constructor | src/app/components/command-builder/command-builder.component.ts:243-246 | No command loaded and both maps empty. |
| Builder.CommandBuilderComponent.LoadCommand | src/app/components/command-builder/command-builder.component.ts:301-306 | The looked-up command is stored; when it exists the maps are its defaults, otherwise they are untouched. |
| Builder.CommandBuilderComponent.InitializeStates | src/app/components/command-builder/command-builder.component.ts:313-332 | The two loops leave the maps equal to the default maps, covering exactly the declared ids. |
| Builder.CommandBuilderComponent.ToggleFlag | src/app/components/command-builder/command-builder.component.ts:338-345 | The flag map becomes `ToggledFlags` of the old one; command and option map unchanged. |
| Builder.CommandBuilderComponent.ToggleOption | src/app/components/command-builder/command-builder.component.ts:351-358 | The option map becomes `ToggledOptions` of the old one; command and flag map unchanged. |
| Builder.CommandBuilderComponent.UpdateOptionValue | src/app/components/command-builder/command-builder.component.ts:360-370 | The option map becomes `UpdatedValue` of the old one; command and flag map unchanged. |
| Builder.CommandBuilderComponent.ApplyExample | src/app/components/command-builder/command-builder.component.ts:372-403 | Without a command nothing changes; otherwise the maps are the defaults overwritten by the presets whose keys are known ids. |
| Builder.CommandBuilderComponent.ResetCommand | src/app/components/command-builder/command-builder.component.ts:405-410 | Without a command nothing changes; otherwise the maps are the defaults again. |
| Model.TruthyTextNonEmpty | src/app/components/command-builder/command-builder.component.ts:271-272 | A truthy value never renders as the empty string. |
| Text.IntToStringShape | src/app/components/command-builder/command-builder.component.ts:272 | The rendering of a number is non-empty, starts with '-' exactly for negatives, and is otherwise digits. |
| Text.NatToStringDigits | src/app/components/command-history.component.ts:96-98 | The rendering of a count is a non-empty string of digits. |
| Text.NatToStringRoundTrip | src/app/components/command-history.component.ts:96-98 | The decimal rendering of a count reads back as that count. |
| Text.NatToStringInjective | src/app/components/command-history.component.ts:96-98 | Different counts render differently. |
| Shell.WordsQuoted | src/app/components/command-builder/command-builder.component.ts:273-274 | A value wrapped in double quotes is read as one word, the value itself. |
| Shell.WordsBare | src/app/components/command-builder/command-builder.component.ts:279 | A space- and quote-free part followed by a space or the end is read as one word. |
| Service.HistoryKeyInjective | src/app/services/command.service.ts:49 | Different command ids use different storage keys. |
| Service.Find | src/app/services/command.service.ts:40-42 | The result is the first command with that id, and nothing exactly when no command has it. |
| Service.Prepend | src/app/services/command.service.ts:57-58 | The new entry is first, followed by the old history truncated so that the total is at most 20. |
| Service.SaveThenRead | src/app/services/command.service.ts:44-80 | Reading after saving gives the new entry in front of the previous history, capped at 20. |
| Service.SaveLeavesOthers | src/app/services/command.service.ts:44-65 | Saving for one id leaves every other id's history unchanged. |
| Service.ClearEmpties | src/app/services/command.service.ts:82-93 | After clearing, the id reads as an empty history. |
| Service.ClearLeavesOthers | src/app/services/command.service.ts:82-93 | Clearing one id leaves every other id's history unchanged. |
| Service.SavedAllHistory | src/app/services/command.service.ts:44-65 | After a run of saves for one id, the history is those entries newest first, followed by the earlier history, cut to 20. |
| Service.SavedAllBound | src/app/services/command.service.ts:57-58 | After a run of saves the history has min(old + saved, 20) entries and starts with the last one saved. |
| Service.ReplayLeavesUnnamed | src/app/services/command.service.ts:67-80 | Any interleaving of saves for other ids leaves an id's history as it was, so an id never saved reads as empty from an empty store. |
| Service.CommandService.constructor | src/app/services/command.service.ts:13-16 | The catalogue starts empty, and the platform and initial storage are as given. |
| Service.CommandService.LoadCommands | src/app/services/command.service.ts:20-38 | Off the browser nothing changes; a fetched payload replaces the catalogue, a null one leaves it, a failure empties it. |
| Service.CommandService.SaveToHistory | src/app/services/command.service.ts:44-65 | On the browser without a write failure, the id's history becomes the entry prepended (capped at 20); otherwise storage is unchanged; other ids are untouched and the bound is kept. |
| Service.CommandService.ClearHistory | src/app/services/command.service.ts:82-93 | On the browser without a failure the key is removed and the id reads as empty; other ids are untouched. |
| History.FormatTimestamp | src/app/components/command-history.component.ts:87-101 | "Just now" exactly when less than a minute has passed (a future timestamp included); the absolute date exactly from seven days on, rendered from the entry's own timestamp. |
| History.AgoNotJustNow | src/app/components/command-history.component.ts:95-98 | A counted label is never "Just now". |
| History.MinutesAgo | src/app/components/command-history.component.ts:91-96 | Between n and n+1 whole minutes (1 <= n < 60) the label is "n minute(s) ago". |
| History.HoursAgo | src/app/components/command-history.component.ts:92-97 | Between n and n+1 whole hours (1 <= n < 24) the label is "n hour(s) ago". |
| History.DaysAgo | src/app/components/command-history.component.ts:93-98 | Between n and n+1 whole days (1 <= n < 7) the label is "n day(s) ago". |
| History.AgoReadsBack | src/app/components/command-history.component.ts:96-98 | The label starts with the count, which reads back as n, then a space; it ends in "s ago" exactly when n > 1. |
| History.AgoInjective | src/app/components/command-history.component.ts:96-98 | Different counts give different labels for the same unit. |
| History.MinuteBoundary | src/app/components/command-history.component.ts:95-96 | 59 999 ms is "Just now", 60 000 ms is "1 minute ago". |
| History.HourBoundary | src/app/components/command-history.component.ts:96-97 | One millisecond under an hour is "59 minutes ago"; an hour is "1 hour ago". |
| History.DayBoundary | src/app/components/command-history.component.ts:97-98 | One millisecond under a day is "23 hours ago"; a day is "1 day ago". |
| History.WeekBoundary | src/app/components/command-history.component.ts:98-100 | One millisecond under a week is "6 days ago"; a week gives the absolute date. |
| History.CommandHistoryComponent.constructor | src/app/components/command-history.component.ts:62-69 | The effect loads the history when the command id is non-empty; otherwise the panel is empty. |
| History.CommandHistoryComponent.LoadHistory | src/app/components/command-history.component.ts:71-75 | The panel holds what the service reads for its id. |
| History.CommandHistoryComponent.ClearHistory | src/app/components/command-history.component.ts:77-81 | The service's storage is cleared for the id and the panel reloads: empty after a successful removal, the old history when the removal throws; other ids unaffected. |

`Builder.GetFlagState` and `Builder.GetOptionState` (lines 334-336 and 347-349) are the state lookups. They have no contract of their own; `UnstatedFlagsSilent` and `UnstatedOptionsSilent` state their defaults. `Service.CommandService.GetCommand` (lines 40-42) is `Service.Find`. `Builder.OptionPush` is the body of the options `forEach` that `Builder.PushOptions` calls; the option rule it carries out is stated by `FalsyValueDropped`, `OptionPartIsQuotedWords` and `GeneratedCommandReadsAsArgv`. `Service.CommandService.GetHistory` (lines 67-80) reads the empty sequence off the browser and the stored list otherwise.

## Left out
- The `console.error` calls in the catch blocks of `loadCommands`, `saveToHistory`, `getHistory` and `clearHistory` are logging only and are not modelled.

- Floating point: JavaScript numbers are modelled as unbounded integers. Fractions, NaN and exponent notation in `toString()` are not modelled.
- `Number(target.value)` in `updateOptionValue`: the DOM event is not modelled, so the method receives the already-converted `Value`.
- JSON serialisation and parsing of the history, and a corrupt stored value that makes `JSON.parse` throw. The store holds the entry lists directly.
- A failing `localStorage.getItem`: it is read as an empty history, like off the browser, and is not a separate input.
- Angular signals, `computed` and `effect` re-evaluation, route parameters, `isLoading`, the page title, the clipboard, and the copy/save button texts with their `setTimeout`: these are UI plumbing with no logic to prove.
- `ngOnInit`'s waiting for the catalogue before the lookup: `LoadCommand` takes the lookup's result.
- The asynchronous `fetch` of the catalogue: `LoadCommands` takes the settled outcome.
- `toLocaleDateString`/`toLocaleTimeString`: they depend on the locale, so `Absolute` keeps only the timestamp the date is rendered from.
- `Date.now()` and `new Date()` are the parameter `now`.
- The group-aware command lookup appears only in the repository's tests, not in `command.service.ts`, and is not part of this model.
- Builder.ToggleFlagEffect: stated only for commands with distinct flag ids. With duplicate ids, toggling one affects every flag sharing the id.
- Builder.ApplyExampleEntries: stated only for commands with distinct flag and option ids. With duplicates, the last declaration supplies the default, as `DefaultFlagStatesLast` and `DefaultOptionStatesLast` state.
- Builder.GeneratedCommandReadsAsArgv: the reference reading `Shell.Words` is a simplified shell tokenizer. It has no escapes, no single quotes and no tabs. The theorem also excludes literals containing spaces or double quotes, which the source emits unquoted. It excludes an empty command name and an empty flag literal too: the source emits such a literal as an empty part, which leaves a doubled or trailing space that a shell reading drops.
- A value of 0 or "" makes an option emit only its literal, because the source tests the value's truthiness. The model keeps this behaviour (`FalsyValueDropped`).
