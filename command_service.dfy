/**
 * The command service: the loaded catalogue with its lookup by id, and the
 * per-command history log kept in the browser's key-value storage under the
 * key "command-history-" + id, newest entry first, at most 20 entries.
 */
module Service {
  import opened Wrappers
  import opened Model

  datatype HistoryEntry = HistoryEntry(command: string, timestamp: int)

  /** The browser's local storage, as far as the history uses it: key to stored entries. */
  type Store = map<string, seq<HistoryEntry>>

  const HistoryPrefix: string := "command-history-"

  const HistoryLimit: nat := 20

  function HistoryKey(id: string): string {
    HistoryPrefix + id
  }

  /** Different command ids never share a storage key. */
  lemma HistoryKeyInjective(a: string, b: string)
    requires HistoryKey(a) == HistoryKey(b)
    ensures a == b
  {
    assert a == HistoryKey(a)[|HistoryPrefix|..];
    assert b == HistoryKey(b)[|HistoryPrefix|..];
  }

  /** `commands.find(cmd => cmd.id === id)`: the first command with that exact id. */
  function Find(commands: seq<Command>, id: string): (r: Option<Command>)
    decreases |commands|
    ensures r.None? <==> forall i :: 0 <= i < |commands| ==> commands[i].id != id
    ensures r.Some? ==> exists i :: (0 <= i < |commands| && commands[i] == r.value && commands[i].id == id
                                     && forall j :: 0 <= j < i ==> commands[j].id != id)
  {
    if commands == [] then None
    else if commands[0].id == id then Some(commands[0])
    else
      var r := Find(commands[1..], id);
      assert r.Some? ==> exists i :: (1 <= i < |commands| && commands[i] == r.value && commands[i].id == id
                                      && forall j :: 1 <= j < i ==> commands[j].id != id) by {
        if r.Some? {
          var i :| 0 <= i < |commands| - 1 && commands[1..][i] == r.value && commands[1..][i].id == id
                   && forall j :: 0 <= j < i ==> commands[1..][j].id != id;
          assert commands[i + 1] == r.value;
          forall j | 1 <= j < i + 1
            ensures commands[j].id != id
          {
            assert commands[j] == commands[1..][j - 1];
          }
        }
      }
      assert r.None? ==> forall i :: 0 <= i < |commands| ==> commands[i].id != id by {
        if r.None? {
          forall i | 1 <= i < |commands|
            ensures commands[i].id != id
          {
            assert commands[i] == commands[1..][i - 1];
          }
        }
      }
      r
  }

  /** What `getHistory` reads for an id in a browser: the stored entries, or none. */
  function Stored(store: Store, id: string): seq<HistoryEntry> {
    if HistoryKey(id) in store then store[HistoryKey(id)] else []
  }

  /** `[entry, ...history].slice(0, 20)`. */
  function Prepend(entry: HistoryEntry, history: seq<HistoryEntry>): (r: seq<HistoryEntry>)
    ensures |r| == if |history| + 1 < HistoryLimit then |history| + 1 else HistoryLimit
    ensures r[0] == entry
    ensures r[1..] == history[..|r| - 1]
  {
    var all := [entry] + history;
    all[..if |all| < HistoryLimit then |all| else HistoryLimit]
  }

  /** The store after a successful save of `entry` for `id`. */
  function Saved(store: Store, id: string, entry: HistoryEntry): Store {
    store[HistoryKey(id) := Prepend(entry, Stored(store, id))]
  }

  /** The store after a successful removal of the history of `id`. */
  function Cleared(store: Store, id: string): Store {
    store - {HistoryKey(id)}
  }

  /** The store after saving each of `entries` for `id`, in order. */
  function SavedAll(store: Store, id: string, entries: seq<HistoryEntry>): Store
    decreases |entries|
  {
    if entries == [] then store
    else Saved(SavedAll(store, id, entries[..|entries| - 1]), id, entries[|entries| - 1])
  }

  function Reverse<T>(s: seq<T>): (r: seq<T>)
    decreases |s|
  {
    if s == [] then [] else [s[|s| - 1]] + Reverse(s[..|s| - 1])
  }

  function Take<T>(s: seq<T>, n: nat): seq<T> {
    if |s| <= n then s else s[..n]
  }

  /** A save is seen by the next read of the same id, as its newest entry. */
  lemma SaveThenRead(store: Store, id: string, entry: HistoryEntry)
    ensures Stored(Saved(store, id, entry), id) == Prepend(entry, Stored(store, id))
    ensures Stored(Saved(store, id, entry), id)[0] == entry
  {
  }

  /** Saving for one id leaves the history of every other id as it was. */
  lemma SaveLeavesOthers(store: Store, id: string, other: string, entry: HistoryEntry)
    requires other != id
    ensures Stored(Saved(store, id, entry), other) == Stored(store, other)
  {
    if HistoryKey(other) == HistoryKey(id) {
      HistoryKeyInjective(other, id);
    }
  }

  /** After a clear, the id reads as empty; clearing again changes nothing. */
  lemma ClearEmpties(store: Store, id: string)
    ensures Stored(Cleared(store, id), id) == []
    ensures Cleared(Cleared(store, id), id) == Cleared(store, id)
  {
  }

  /** Clearing one id leaves the history of every other id as it was. */
  lemma ClearLeavesOthers(store: Store, id: string, other: string)
    requires other != id
    ensures Stored(Cleared(store, id), other) == Stored(store, other)
  {
    if HistoryKey(other) == HistoryKey(id) {
      HistoryKeyInjective(other, id);
    }
  }

  lemma TakePrepend<T>(x: T, s: seq<T>, n: nat)
    requires n >= 1
    ensures Take([x] + Take(s, n), n) == Take([x] + s, n)
  {
  }

  /**
   * After any sequence of saves for one id, its history holds the newest
   * entries first, followed by what was there before, cut to the 20 newest.
   */
  lemma {:induction false} SavedAllHistory(store: Store, id: string, entries: seq<HistoryEntry>)
    requires |Stored(store, id)| <= HistoryLimit
    ensures Stored(SavedAll(store, id, entries), id) == Take(Reverse(entries) + Stored(store, id), HistoryLimit)
    decreases |entries|
  {
    var before := Stored(store, id);
    if entries == [] {
      assert Reverse(entries) + before == before;
    } else {
      var init, last := entries[..|entries| - 1], entries[|entries| - 1];
      SavedAllHistory(store, id, init);
      var mid := Stored(SavedAll(store, id, init), id);
      assert Prepend(last, mid) == Take([last] + mid, HistoryLimit);
      TakePrepend(last, Reverse(init) + before, HistoryLimit);
      assert Reverse(entries) == [last] + Reverse(init);
      assert [last] + (Reverse(init) + before) == Reverse(entries) + before;
    }
  }

  /** The bound and the head of the history after a run of saves for one id. */
  lemma SavedAllBound(store: Store, id: string, entries: seq<HistoryEntry>)
    requires |Stored(store, id)| <= HistoryLimit
    ensures var n := |Stored(store, id)| + |entries|;
      |Stored(SavedAll(store, id, entries), id)| == if n < HistoryLimit then n else HistoryLimit
    ensures entries != [] ==> Stored(SavedAll(store, id, entries), id)[0] == entries[|entries| - 1]
  {
    SavedAllHistory(store, id, entries);
    ReverseLength(entries);
    if entries != [] {
      assert Reverse(entries)[0] == entries[|entries| - 1];
    }
  }

  lemma {:induction false} ReverseLength<T>(s: seq<T>)
    ensures |Reverse(s)| == |s|
    decreases |s|
  {
    if s != [] {
      ReverseLength(s[..|s| - 1]);
    }
  }

  /** The store after a run of saves, each for its own id. */
  function Replay(store: Store, saves: seq<(string, HistoryEntry)>): Store
    decreases |saves|
  {
    if saves == [] then store
    else
      var (id, entry) := saves[|saves| - 1];
      Saved(Replay(store, saves[..|saves| - 1]), id, entry)
  }

  /** An id that none of the saves names keeps its history; from an empty store it reads as empty. */
  lemma {:induction false} ReplayLeavesUnnamed(store: Store, saves: seq<(string, HistoryEntry)>, id: string)
    requires forall i :: 0 <= i < |saves| ==> saves[i].0 != id
    ensures Stored(Replay(store, saves), id) == Stored(store, id)
    decreases |saves|
  {
    if saves != [] {
      var init := saves[..|saves| - 1];
      assert forall i :: 0 <= i < |init| ==> init[i] == saves[i];
      ReplayLeavesUnnamed(store, init, id);
      SaveLeavesOthers(Replay(store, init), saves[|saves| - 1].0, id, saves[|saves| - 1].1);
    }
  }

  /**
   * What `fetch('/commands.json')` delivered once settled: a payload, a null
   * payload, or a failure (a rejected fetch, a non-ok status or a body that is
   * not JSON).
   */
  datatype FetchOutcome = Fetched(data: CommandData) | FetchedNull | FetchFailed

  /** The service's state: the platform, the loaded catalogue and the history part of local storage. */
  class CommandService {
    /** `isPlatformBrowser(this.platformId)`. */
    const isBrowser: bool
    var commandsData: seq<Command>
    /** The part of local storage the history uses. */
    var storage: Store

    /** Every stored history respects the bound. */
    ghost predicate Valid()
      reads this
    {
      forall k :: k in storage ==> |storage[k]| <= HistoryLimit
    }

    constructor (isBrowser: bool, storage: Store)
      requires forall k :: k in storage ==> |storage[k]| <= HistoryLimit
      ensures Valid()
      ensures this.isBrowser == isBrowser && this.storage == storage && commandsData == []
    {
      this.isBrowser := isBrowser;
      this.storage := storage;
      commandsData := [];
    }

    /**
     * `loadCommands` once the fetch has settled: off the browser nothing
     * happens, a failure leaves an empty catalogue, a null payload leaves the
     * catalogue as it was.
     */
    method LoadCommands(outcome: FetchOutcome)
      requires Valid()
      modifies this
      ensures Valid() && storage == old(storage)
      ensures commandsData == if !isBrowser then old(commandsData) else
        match outcome
        case Fetched(data) => data.commands
        case FetchedNull => old(commandsData)
        case FetchFailed => []
    {
      if !isBrowser {
        return;
      }
      match outcome
      case Fetched(data) => commandsData := data.commands;
      case FetchedNull =>
      case FetchFailed => commandsData := [];
    }

    /** `getCommand`: a flat lookup over the loaded top-level commands. */
    function GetCommand(id: string): Option<Command>
      reads this
    {
      Find(commandsData, id)
    }

    /** `getHistory`: off the browser, and for an id never saved, the empty sequence. */
    function GetHistory(id: string): seq<HistoryEntry>
      reads this
    {
      if !isBrowser then [] else Stored(storage, id)
    }

    /**
     * `saveToHistory` at time `now`; `writeFails` stands for `setItem`
     * throwing, which is caught and leaves the storage as it was.
     */
    method SaveToHistory(commandId: string, commandString: string, now: int, writeFails: bool)
      requires Valid()
      modifies this
      ensures Valid() && commandsData == old(commandsData)
      ensures storage == if !isBrowser || writeFails then old(storage)
                         else Saved(old(storage), commandId, HistoryEntry(commandString, now))
      ensures isBrowser && !writeFails ==>
        GetHistory(commandId) == Prepend(HistoryEntry(commandString, now), old(GetHistory(commandId)))
      ensures forall other :: other != commandId ==> GetHistory(other) == old(GetHistory(other))
    {
      if !isBrowser {
        return;
      }
      var key := HistoryKey(commandId);
      var history := GetHistory(commandId);
      var entry := HistoryEntry(commandString, now);
      var updatedHistory := Prepend(entry, history);
      if !writeFails {
        storage := storage[key := updatedHistory];
      }
      forall other | other != commandId
        ensures Stored(storage, other) == Stored(old(storage), other)
      {
        SaveLeavesOthers(old(storage), commandId, other, entry);
      }
    }

    /** `clearHistory`; `removeFails` stands for `removeItem` throwing, which is caught. */
    method ClearHistory(commandId: string, removeFails: bool)
      requires Valid()
      modifies this
      ensures Valid() && commandsData == old(commandsData)
      ensures storage == if !isBrowser || removeFails then old(storage) else Cleared(old(storage), commandId)
      ensures !removeFails ==> GetHistory(commandId) == []
      ensures forall other :: other != commandId ==> GetHistory(other) == old(GetHistory(other))
    {
      if !isBrowser {
        return;
      }
      var key := HistoryKey(commandId);
      if !removeFails {
        storage := storage - {key};
      }
      forall other | other != commandId
        ensures Stored(storage, other) == Stored(old(storage), other)
      {
        ClearLeavesOthers(old(storage), commandId, other);
      }
    }
  }
}
