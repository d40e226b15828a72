/**
 * The history and settings store: a most-recent-first list of past conversions and a settings
 * dictionary, kept in the client's key-value storage. The first storage fault switches the manager
 * to an in-memory mirror for the rest of the session; the mirror is kept up to date on every write.
 */
module History {
  import opened SeqUtil

  /** A JSON-like value, as the storage holds it. */
  datatype Value =
    | Null
    | Bool(b: bool)
    | Int(i: int)
    | Real(r: real)
    | Str(s: string)
    | List(items: seq<Value>)
    | Dict(fields: map<string, Value>)

  /** Python truthiness: zero, empty containers, `None` and `False` are false. */
  predicate Truthy(v: Value)
  {
    match v
    case Null => false
    case Bool(b) => b
    case Int(i) => i != 0
    case Real(r) => r != 0.0
    case Str(s) => s != []
    case List(xs) => xs != []
    case Dict(m) => m != map[]
  }

  /** The numeric reading of booleans, integers and floats, under which Python compares them. */
  function Numeric(v: Value): Option<real>
  {
    match v
    case Bool(b) => Some(if b then 1.0 else 0.0)
    case Int(i) => Some(i as real)
    case Real(r) => Some(r)
    case _ => None
  }

  /** Python's `==`: numbers compare by value across `bool`, `int` and `float`. */
  predicate PyEq(a: Value, b: Value)
  {
    if Numeric(a).Some? && Numeric(b).Some? then Numeric(a).value == Numeric(b).value else a == b
  }

  /** `d.get(k, default)`. */
  function Get(d: map<string, Value>, k: string, default: Value): Value
  {
    if k in d then d[k] else default
  }

  const HistoryKey: string := "tenji_pfab_history_v1"
  const ConfigKey: string := "tenji_pfab_config_v1"
  const HistoryLimitKey: string := "history_limit"
  const DefaultHistoryLimit: int := 20

  // ---------------------------------------------------------------------------
  // Fallible storage with a memory mirror

  /** The manager's state: the client storage, the two mirrors and the one-way failure flag. */
  datatype Backing = Backing(store: map<string, Value>, memConfig: Value, memHistory: Value, failed: bool)

  /** `_safe_get`, with `fault` saying whether the storage raises on this access: the value read
      and the state after it. */
  function ReadSpec(b: Backing, key: string, default: Value, fault: bool): (r: (Value, Backing))
    ensures r.1.failed == (b.failed || fault)
    ensures r.1.store == b.store && r.1.memConfig == b.memConfig && r.1.memHistory == b.memHistory
    ensures b.failed ==>
      r.0 == default || (key == ConfigKey && r.0 == b.memConfig) || (key == HistoryKey && r.0 == b.memHistory)
    ensures !b.failed && fault ==> r.0 == default
    ensures !b.failed && !fault ==> r.0 == Get(b.store, key, default)
  {
    if b.failed then
      if key == ConfigKey then (if Truthy(b.memConfig) then b.memConfig else default, b)
      else if key == HistoryKey then (if Truthy(b.memHistory) then b.memHistory else default, b)
      else (default, b)
    else if fault then (default, b.(failed := true))
    else (Get(b.store, key, default), b)
  }

  /** `_safe_set`: the mirror of the key is updated first, then the storage is written unless it
      has failed before or fails now. */
  function WriteSpec(b: Backing, key: string, value: Value, fault: bool): (b': Backing)
    ensures b'.failed == (b.failed || fault)
    ensures b'.memConfig == if key == ConfigKey then value else b.memConfig
    ensures b'.memHistory == if key == HistoryKey then value else b.memHistory
    ensures b'.store == if b'.failed then b.store else b.store[key := value]
  {
    var mirrored := b.(memConfig := if key == ConfigKey then value else b.memConfig,
                       memHistory := if key == HistoryKey then value else b.memHistory);
    if b.failed then mirrored
    else if fault then mirrored.(failed := true)
    else mirrored.(store := b.store[key := value])
  }

  /** Once the storage has failed it stays failed, whatever later accesses do. */
  lemma FailureIsSticky(b: Backing, key: string, v: Value, fault: bool)
    requires b.failed
    ensures ReadSpec(b, key, v, fault).1 == b
    ensures WriteSpec(b, key, v, fault).failed && WriteSpec(b, key, v, fault).store == b.store
  {
  }

  /** A value written under the history or the config key is what the next read returns, even
      when the storage has failed or fails on the write; only an empty value, which the mirror
      treats as absent, reads back as the default, and a read that faults on healthy storage
      returns the default. */
  lemma WriteThenRead(b: Backing, key: string, v: Value, writeFault: bool, default: Value, readFault: bool)
    requires key == HistoryKey || key == ConfigKey
    ensures var b' := WriteSpec(b, key, v, writeFault);
      ReadSpec(b', key, default, readFault).0 ==
        if b'.failed then (if Truthy(v) then v else default)
        else if readFault then default
        else v
  {
  }

  // ---------------------------------------------------------------------------
  // The history list

  /** `get_history`: the stored value when it is a list, otherwise empty. */
  function HistoryOf(v: Value): (h: seq<Value>)
    ensures v.List? ==> h == v.items
    ensures !v.List? ==> h == []
  {
    if v.List? then v.items else []
  }

  /** `load_settings`: the stored value when it is a dictionary, otherwise empty. */
  function ConfigOf(v: Value): (c: map<string, Value>)
    ensures v.Dict? ==> c == v.fields
    ensures !v.Dict? ==> c == map[]
  {
    if v.Dict? then v.fields else map[]
  }

  /** The record `add_entry` builds; the settings missing from `settings` take their defaults. */
  function NewEntry(text: string, settings: map<string, Value>, now: string): (e: map<string, Value>)
    ensures e.Keys == {"text", "timestamp", "max_chars_per_line", "max_lines_per_plate", "plate_thickness"}
    ensures e["text"] == Str(text) && e["timestamp"] == Str(now)
    ensures e["max_chars_per_line"] == Get(settings, "max_chars_per_line", Int(10))
    ensures e["max_lines_per_plate"] == Get(settings, "max_lines_per_plate", Int(3))
    ensures e["plate_thickness"] == Get(settings, "plate_thickness", Real(1.0))
  {
    map["text" := Str(text), "timestamp" := Str(now),
        "max_chars_per_line" := Get(settings, "max_chars_per_line", Int(10)),
        "max_lines_per_plate" := Get(settings, "max_lines_per_plate", Int(3)),
        "plate_thickness" := Get(settings, "plate_thickness", Real(1.0))]
  }

  /** The head repeats the new entry: same text and same line and plate sizes (the thickness is
      not compared). */
  predicate SameAsHead(last: map<string, Value>, entry: map<string, Value>)
    requires "text" in entry && "max_chars_per_line" in entry && "max_lines_per_plate" in entry
  {
    && PyEq(Get(last, "text", Null), entry["text"])
    && PyEq(Get(last, "max_chars_per_line", Null), entry["max_chars_per_line"])
    && PyEq(Get(last, "max_lines_per_plate", Null), entry["max_lines_per_plate"])
  }

  /** `xs[:n]`: a negative bound counts from the end. */
  function PySlice<T>(xs: seq<T>, n: int): (r: seq<T>)
    ensures |r| <= |xs| && r == xs[..|r|]
    ensures n >= 0 ==> |r| == Min(n, |xs|)
    ensures n < 0 ==> |r| == Max(0, |xs| + n)
  {
    if n >= 0 then xs[..Min(n, |xs|)] else xs[..Max(0, |xs| + n)]
  }

  /** What `add_entry` does to the list: the list it stores, or the list as it stood when an
      exception was raised. */
  datatype Added = Stored(history: seq<Value>) | Raised(list: seq<Value>)

  /** The history list after `add_entry`, given the list and the limit it read. */
  function AddToHistory(h: seq<Value>, text: string, settings: map<string, Value>, now: string, limit: Value)
    : Added
  {
    var entry := NewEntry(text, settings, now);
    if h != [] && !h[0].Dict? then Raised(h)
    else if h != [] && SameAsHead(h[0].fields, entry) then
      Stored([Dict(h[0].fields["timestamp" := Str(now)])] + h[1..])
    else
      var inserted := [Dict(entry)] + h;
      match limit
      case Int(n) => Stored(if |inserted| > n then PySlice(inserted, n) else inserted)
      case Bool(b) =>
        var n := if b then 1 else 0;
        Stored(if |inserted| > n then PySlice(inserted, n) else inserted)
      case Real(r) => if (|inserted| as real) > r then Raised(inserted) else Stored(inserted)
      case _ => Raised(inserted)
  }

  /** A repeat of the head only refreshes its timestamp: the list keeps its length and every other
      entry, whatever the limit. */
  lemma AddRepeatRefreshesHead(h: seq<Value>, text: string, settings: map<string, Value>, now: string, limit: Value)
    requires h != [] && h[0].Dict? && SameAsHead(h[0].fields, NewEntry(text, settings, now))
    ensures var a := AddToHistory(h, text, settings, now, limit);
      && a.Stored?
      && |a.history| == |h|
      && a.history[1..] == h[1..]
      && a.history[0] == Dict(h[0].fields["timestamp" := Str(now)])
  {
  }

  /** A new entry goes first; with a limit `n >= 0` the list keeps at most `n` entries, and the
      entries that survive are the newest ones, in their old order. */
  lemma AddNewIsBounded(h: seq<Value>, text: string, settings: map<string, Value>, now: string, n: int)
    requires n >= 0
    requires h != [] ==> h[0].Dict? && !SameAsHead(h[0].fields, NewEntry(text, settings, now))
    ensures var a := AddToHistory(h, text, settings, now, Int(n));
      && a.Stored?
      && |a.history| == Min(n, |h| + 1)
      && (n >= 1 ==> a.history[0] == Dict(NewEntry(text, settings, now)))
      && (n >= 1 ==> a.history[1..] == h[..|a.history| - 1])
  {
    var inserted := [Dict(NewEntry(text, settings, now))] + h;
    var r := AddToHistory(h, text, settings, now, Int(n)).history;
    assert r == inserted[..|r|];
    if n >= 1 {
      assert r[1..] == inserted[1..|r|];
    }
  }

  /** A negative limit `n` drops `-n` entries from the old end of the list, new entry included. */
  lemma AddNegativeLimit(h: seq<Value>, text: string, settings: map<string, Value>, now: string, n: int)
    requires n < 0
    requires h != [] ==> h[0].Dict? && !SameAsHead(h[0].fields, NewEntry(text, settings, now))
    ensures var a := AddToHistory(h, text, settings, now, Int(n));
      && a.Stored?
      && |a.history| == Max(0, |h| + 1 + n)
      && a.history == ([Dict(NewEntry(text, settings, now))] + h)[..|a.history|]
  {
  }

  /** With a limit that is not an integer a new entry raises: a float raises when the list would
      exceed it (it cannot be a slice bound), anything else on the comparison. The new entry is
      then already first in the list. */
  lemma AddRaisesOnOtherLimits(h: seq<Value>, text: string, settings: map<string, Value>, now: string, limit: Value)
    requires !limit.Int? && !limit.Bool?
    requires h != [] ==> h[0].Dict? && !SameAsHead(h[0].fields, NewEntry(text, settings, now))
    ensures var a := AddToHistory(h, text, settings, now, limit);
      && (a.Raised? <==> !limit.Real? || (|h| + 1) as real > limit.r)
      && (a.Raised? ==> a.list == [Dict(NewEntry(text, settings, now))] + h)
  {
  }

  /** `add_entry` on the manager's state, with a fault flag for each storage access it makes (the
      history read, the config read and the history write). When it raises after the new entry was
      inserted into a list that is the memory mirror itself, the mirror keeps the insertion. */
  function AddEntrySpec(b: Backing, text: string, settings: map<string, Value>, now: string,
                        historyFault: bool, configFault: bool, writeFault: bool): (bool, Backing)
  {
    var (hv, b1) := ReadSpec(b, HistoryKey, List([]), historyFault);
    var h := HistoryOf(hv);
    var aliased := b.failed && b.memHistory.List? && Truthy(b.memHistory);
    var (cv, b2) := ReadSpec(b1, ConfigKey, Dict(map[]), configFault);
    var limit := Get(ConfigOf(cv), HistoryLimitKey, Int(DefaultHistoryLimit));
    match AddToHistory(h, text, settings, now, limit)
    case Stored(h') => (false, WriteSpec(b2, HistoryKey, List(h'), writeFault))
    case Raised(l) => (true, if aliased then b2.(memHistory := List(l)) else b2)
  }

  /** After an entry is stored, the next `get_history` returns exactly the stored list, even when
      the storage failed on the way. */
  lemma AddEntryThenGet(b: Backing, text: string, settings: map<string, Value>, now: string,
                        historyFault: bool, configFault: bool, writeFault: bool)
    ensures var (raised, b') := AddEntrySpec(b, text, settings, now, historyFault, configFault, writeFault);
      var (hv, b1) := ReadSpec(b, HistoryKey, List([]), historyFault);
      var (cv, _) := ReadSpec(b1, ConfigKey, Dict(map[]), configFault);
      var a := AddToHistory(HistoryOf(hv), text, settings, now,
                            Get(ConfigOf(cv), HistoryLimitKey, Int(DefaultHistoryLimit)));
      && (raised <==> a.Raised?)
      && (a.Stored? ==> HistoryOf(ReadSpec(b', HistoryKey, List([]), false).0) == a.history)
  {
    var (hv, b1) := ReadSpec(b, HistoryKey, List([]), historyFault);
    var (cv, b2) := ReadSpec(b1, ConfigKey, Dict(map[]), configFault);
    var a := AddToHistory(HistoryOf(hv), text, settings, now,
                          Get(ConfigOf(cv), HistoryLimitKey, Int(DefaultHistoryLimit)));
    if a.Stored? {
      WriteThenRead(b2, HistoryKey, List(a.history), writeFault, List([]), false);
    }
  }

  // ---------------------------------------------------------------------------
  // Settings

  /** `config.update(new_settings)`. */
  function Updated(config: map<string, Value>, news: map<string, Value>): (r: map<string, Value>)
    ensures r.Keys == config.Keys + news.Keys
    ensures forall k :: k in news ==> r[k] == news[k]
    ensures forall k :: k in config && k !in news ==> r[k] == config[k]
  {
    config + news
  }

  /** `save_settings`: read the config, merge the new settings in, write it back. */
  function SaveSpec(b: Backing, news: map<string, Value>, readFault: bool, writeFault: bool): Backing
  {
    var (cv, b1) := ReadSpec(b, ConfigKey, Dict(map[]), readFault);
    WriteSpec(b1, ConfigKey, Dict(Updated(ConfigOf(cv), news)), writeFault)
  }

  /** After `save_settings` the next `load_settings` returns the old settings with the new ones
      laid over them; keys not mentioned keep their values. A read fault on healthy storage makes
      the merge start from no settings at all. */
  lemma SaveThenLoad(b: Backing, news: map<string, Value>, readFault: bool, writeFault: bool)
    ensures var before := if readFault && !b.failed then map[]
                          else ConfigOf(ReadSpec(b, ConfigKey, Dict(map[]), false).0);
      ConfigOf(ReadSpec(SaveSpec(b, news, readFault, writeFault), ConfigKey, Dict(map[]), false).0)
        == Updated(before, news)
  {
    var (cv, b1) := ReadSpec(b, ConfigKey, Dict(map[]), readFault);
    var merged := Updated(ConfigOf(cv), news);
    WriteThenRead(b1, ConfigKey, Dict(merged), writeFault, Dict(map[]), false);
  }

  /** Python's `int(x)` for a float: truncation toward zero. */
  function Trunc(x: real): (n: int)
    ensures x >= 0.0 ==> 0 <= n && n as real <= x < n as real + 1.0
    ensures x < 0.0 ==> n <= 0 && n as real - 1.0 < x <= n as real
  {
    if x >= 0.0 then x.Floor else -((-x).Floor)
  }

  /** `int(n)` of an integer is that integer, so the `int` the limit slider's handler passes is
      stored unchanged. */
  lemma TruncOfInt(n: int)
    ensures Trunc(n as real) == n
  {
  }

  /** `set_history_limit` stores the truncated limit under `history_limit`, which the next
      `get_history_limit` returns; the other settings are kept (unless the read faulted). */
  lemma SetLimitThenGet(b: Backing, limit: real, readFault: bool, writeFault: bool)
    ensures var b' := SaveSpec(b, map[HistoryLimitKey := Int(Trunc(limit))], readFault, writeFault);
      var c := ConfigOf(ReadSpec(b', ConfigKey, Dict(map[]), false).0);
      var before := ConfigOf(ReadSpec(b, ConfigKey, Dict(map[]), false).0);
      && Get(c, HistoryLimitKey, Int(DefaultHistoryLimit)) == Int(Trunc(limit))
      && (!(readFault && !b.failed) ==> forall k :: k in before && k != HistoryLimitKey ==> k in c && c[k] == before[k])
  {
    SaveThenLoad(b, map[HistoryLimitKey := Int(Trunc(limit))], readFault, writeFault);
  }

  // ---------------------------------------------------------------------------
  // The manager

  class HistoryManager {
    /** `page.client_storage`. */
    var store: map<string, Value>
    var memConfig: Value
    var memHistory: Value
    var storageFailed: bool

    function State(): Backing
      reads this
    {
      Backing(store, memConfig, memHistory, storageFailed)
    }

    constructor(clientStorage: map<string, Value>)
      ensures State() == Backing(clientStorage, Dict(map[]), List([]), false)
    {
      store := clientStorage;
      memConfig := Dict(map[]);
      memHistory := List([]);
      storageFailed := false;
    }

    method SafeGet(key: string, default: Value, fault: bool) returns (v: Value)
      modifies this
      ensures (v, State()) == ReadSpec(old(State()), key, default, fault)
    {
      if storageFailed {
        if key == ConfigKey { return if Truthy(memConfig) then memConfig else default; }
        if key == HistoryKey { return if Truthy(memHistory) then memHistory else default; }
        return default;
      }
      if fault {
        storageFailed := true;
        return default;
      }
      v := if key in store then store[key] else default;
    }

    method SafeSet(key: string, value: Value, fault: bool)
      modifies this
      ensures State() == WriteSpec(old(State()), key, value, fault)
    {
      if key == ConfigKey { memConfig := value; }
      if key == HistoryKey { memHistory := value; }
      if storageFailed {
        return;
      }
      if fault {
        storageFailed := true;
      } else {
        store := store[key := value];
      }
    }

    method GetHistory(fault: bool) returns (h: seq<Value>)
      modifies this
      ensures var (v, b) := ReadSpec(old(State()), HistoryKey, List([]), fault);
        h == HistoryOf(v) && State() == b
    {
      var data := SafeGet(HistoryKey, List([]), fault);
      if !data.List? {
        return [];
      }
      h := data.items;
    }

    method LoadSettings(fault: bool) returns (config: map<string, Value>)
      modifies this
      ensures var (v, b) := ReadSpec(old(State()), ConfigKey, Dict(map[]), fault);
        config == ConfigOf(v) && State() == b
    {
      var data := SafeGet(ConfigKey, Dict(map[]), fault);
      if !data.Dict? {
        return map[];
      }
      config := data.fields;
    }

    method GetHistoryLimit(fault: bool) returns (limit: Value)
      modifies this
      ensures var (v, b) := ReadSpec(old(State()), ConfigKey, Dict(map[]), fault);
        limit == Get(ConfigOf(v), HistoryLimitKey, Int(DefaultHistoryLimit)) && State() == b
    {
      var config := LoadSettings(fault);
      limit := if HistoryLimitKey in config then config[HistoryLimitKey] else Int(DefaultHistoryLimit);
    }

    /** The list work of `add_entry`: refresh a repeated head, or insert and truncate. */
    static method UpdateList(history: seq<Value>, text: string, settings: map<string, Value>, now: string,
                             limit: Value)
      returns (a: Added)
      ensures a == AddToHistory(history, text, settings, now, limit)
    {
      var entry := NewEntry(text, settings, now);
      if history != [] {
        var last := history[0];
        if !last.Dict? {
          return Raised(history);
        }
        if SameAsHead(last.fields, entry) {
          return Stored([Dict(last.fields["timestamp" := entry["timestamp"]])] + history[1..]);
        }
      }
      var inserted := [Dict(entry)] + history;
      var n: int;
      match limit {
        case Int(i) => n := i;
        case Bool(b) => n := if b then 1 else 0;
        case Real(r) =>
          if (|inserted| as real) > r {
            return Raised(inserted);
          }
          n := |inserted|;
        case _ =>
          return Raised(inserted);
      }
      if |inserted| > n {
        inserted := if n >= 0 then inserted[..Min(n, |inserted|)] else inserted[..Max(0, |inserted| + n)];
      }
      a := Stored(inserted);
    }

    method AddEntry(text: string, settings: map<string, Value>, now: string,
                    historyFault: bool, configFault: bool, writeFault: bool)
      returns (raised: bool)
      modifies this
      ensures (raised, State()) == AddEntrySpec(old(State()), text, settings, now,
                                                historyFault, configFault, writeFault)
    {
      var aliased := storageFailed && memHistory.List? && Truthy(memHistory);
      var history := GetHistory(historyFault);
      var limit := GetHistoryLimit(configFault);
      var a := UpdateList(history, text, settings, now, limit);
      match a {
        case Stored(h) =>
          SafeSet(HistoryKey, List(h), writeFault);
          raised := false;
        case Raised(l) =>
          if aliased {
            // the list read is the mirror itself, so the insertion already shows there
            memHistory := List(l);
          }
          raised := true;
      }
    }

    method ClearHistory(fault: bool)
      modifies this
      ensures State() == WriteSpec(old(State()), HistoryKey, List([]), fault)
    {
      SafeSet(HistoryKey, List([]), fault);
    }

    method SaveSettings(news: map<string, Value>, readFault: bool, writeFault: bool)
      modifies this
      ensures State() == SaveSpec(old(State()), news, readFault, writeFault)
    {
      var config := LoadSettings(readFault);
      config := config + news;
      SafeSet(ConfigKey, Dict(config), writeFault);
    }

    method SetHistoryLimit(limit: real, readFault: bool, writeFault: bool)
      modifies this
      ensures State() == SaveSpec(old(State()), map[HistoryLimitKey := Int(Trunc(limit))], readFault, writeFault)
    {
      SaveSettings(map[HistoryLimitKey := Int(Trunc(limit))], readFault, writeFault);
    }
  }
}
