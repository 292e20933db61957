/** The option record of zlmb-server and the YAML loader that merges into it
    (src/option.c). Fields of one kind are grouped in a map from option name to
    value; a name that is absent is a null pointer. */
module Options {
  import opened Common
  import opened Text

  // ----- option names and value tables -----

  datatype Kind = ModeOption | StringOption | ListOption | DumptypeOption | FlagOption | Unknown

  function KindOf(name: string): Kind {
    if name == "mode" then ModeOption
    else if name == "client_frontendpoint" then StringOption
    else if name == "client_backendpoints" then ListOption
    else if name == "client_dumpfile" then StringOption
    else if name == "client_dumptype" then DumptypeOption
    else if name == "publish_frontendpoint" then StringOption
    else if name == "publish_backendpoint" then StringOption
    else if name == "publish_key" then StringOption
    else if name == "publish_sendkey" then FlagOption
    else if name == "subscribe_frontendpoints" then ListOption
    else if name == "subscribe_backendpoint" then StringOption
    else if name == "subscribe_key" then StringOption
    else if name == "subscribe_dropkey" then FlagOption
    else if name == "subscribe_dumpfile" then StringOption
    else if name == "subscribe_dumptype" then DumptypeOption
    else if name == "syslog" then FlagOption
    else if name == "verbose" then FlagOption
    else Unknown
  }

  // Front and back ends: CLI_FRONT 1, CLI_BACK 2, PUB_FRONT 4, PUB_BACK 8, SUB_FRONT 16, SUB_BACK 32.
  function ModeCode(data: string): (code: int)
    ensures code != 0
  {
    if data == "client" then 1 + 2
    else if data == "publish" then 4 + 8
    else if data == "subscribe" then 16 + 32
    else if data == "client-publish" || data == "publish-client" then 1 + 8
    else if data == "publish-subscribe" || data == "subscribe-publish" then 4 + 32
    else if data == "client-subscribe" || data == "subscribe-client" then 1 + 2 + 16 + 32
    else if data == "stand-alone" then 1 + 32
    else -1
  }

  // BINARY 1, PLAIN 2, PLAIN_DATETIME 4, PLAIN_FLAGS 8.
  function DumptypeCode(data: string): (code: Option<int>)
    ensures code.Some? ==> code.value != 0
  {
    if data == "binary" then Some(1)
    else if data == "plain-text" then Some(2)
    else if data == "plain-time" then Some(2 + 4)
    else if data == "plain-flags" then Some(2 + 8)
    else if data == "plain-time-flags" || data == "plain-flags-time" then Some(2 + 4 + 8)
    else None
  }

  function Lower(s: string): string {
    seq(|s|, i requires 0 <= i < |s| => if 'A' <= s[i] <= 'Z' then s[i] + 32 as char else s[i])
  }

  predicate Truthy(data: string) {
    Lower(data) == "yes" || Lower(data) == "true" || Lower(data) == "on" || Lower(data) == "y"
  }

  /** Some words, in some spellings. */
  lemma TrueAndFalseWords()
    ensures Truthy("yes") && Truthy("TRUE") && Truthy("On") && Truthy("y")
    ensures !Truthy("no") && !Truthy("false") && !Truthy("off") && !Truthy("1") && !Truthy("")
  {
    assert Lower("yes") == "yes" && Lower("TRUE") == "true" && Lower("On") == "on" && Lower("y") == "y";
    assert Lower("no") == "no" && Lower("false") == "false" && Lower("off") == "off" && Lower("1") == "1" && Lower("") == "";
  }

  /** The record as a value. `dumptypes` and `flags` hold every option of their
      kind that was ever assigned; an absent one has its initial value, 0 for a
      dump type and anything but 1 for a flag. */
  datatype Settings = Settings(
    mode: int,
    strings: map<string, string>,
    lists: map<string, string>,
    dumptypes: map<string, int>,
    flags: map<string, int>)

  const INITIAL := Settings(0, map[], map[], map[], map[])

  // ----- one assignment -----

  /** The record after a value arrives for the option `key`. */
  function Assign(s: Settings, key: string, data: string, depth: int): Settings {
    match KindOf(key)
    case ModeOption => if s.mode != 0 then s else s.(mode := ModeCode(data))
    case StringOption => if key in s.strings then s else s.(strings := s.strings[key := data])
    case ListOption =>
      if depth != 1 then s
      else if key in s.lists then s.(lists := s.lists[key := s.lists[key] + "," + data])
      else s.(lists := s.lists[key := data])
    case DumptypeOption =>
      if key in s.dumptypes || DumptypeCode(data).None? then s
      else s.(dumptypes := s.dumptypes[key := DumptypeCode(data).value])
    case FlagOption =>
      if key in s.flags && s.flags[key] == 1 then s
      else s.(flags := s.flags[key := if Truthy(data) then 1 else 0])
    case Unknown => s
  }

  /** Whether the option's value is fixed already, in the cases where the
      function forgets the key even inside a sequence. */
  predicate Settled(s: Settings, key: string) {
    match KindOf(key)
    case ModeOption => s.mode != 0
    case DumptypeOption => key in s.dumptypes
    case _ => false
  }

  /** The key that `zlmb_option_set` hands back. */
  function KeyAfter(s: Settings, key: Option<string>, data: string, sequence: int): Option<string> {
    match key
    case None => if KindOf(data) == ListOption && data in s.lists then None else Some(data)
    case Some(k) => if Settled(s, k) || sequence == 0 then None else key
  }

  function SettingsAfter(s: Settings, key: Option<string>, data: string, depth: int): Settings {
    match key
    case None => s
    case Some(k) => Assign(s, k, data, depth)
  }

  // ----- the event loop -----

  datatype Event = MappingStart | MappingEnd | SequenceStart | SequenceEnd | StreamEnd | Scalar(value: string) | Other

  datatype Loader = Loader(settings: Settings, key: Option<string>, depth: int, sequence: int)

  function Handle(l: Loader, e: Event): Loader {
    match e
    case MappingStart => l.(depth := l.depth + 1)
    case MappingEnd => l.(depth := l.depth - 1)
    case SequenceStart => l.(sequence := l.sequence + 1)
    case SequenceEnd => l.(key := if l.key.Some? && l.sequence == 1 then None else l.key, sequence := l.sequence - 1)
    case StreamEnd => l.(key := None)
    case Scalar(data) =>
      l.(settings := SettingsAfter(l.settings, l.key, data, l.depth),
         key := KeyAfter(l.settings, l.key, data, l.sequence))
    case Other => l
  }

  /** All events of a file in turn. */
  function HandleAll(l: Loader, es: seq<Event>): Loader
    decreases es
  {
    if es == [] then l else HandleAll(Handle(l, es[0]), es[1..])
  }

  lemma {:induction false} HandleAllAppend(l: Loader, a: seq<Event>, b: seq<Event>)
    ensures HandleAll(l, a + b) == HandleAll(HandleAll(l, a), b)
    decreases a
  {
    if a == [] {
      assert a + b == b;
    } else {
      HandleAllAppend(Handle(l, a[0]), a[1..], b);
      assert (a + b)[1..] == a[1..] + b;
    }
  }

  class OptionRecord {
    var mode: int
    var strings: map<string, string>
    var lists: map<string, string>
    var dumptypes: map<string, int>
    var flags: map<string, int>

    ghost function View(): Settings
      reads this
    {
      Settings(mode, strings, lists, dumptypes, flags)
    }

    constructor ()
      ensures View() == INITIAL
    {
      mode := 0;
      strings, lists := map[], map[];
      dumptypes, flags := map[], map[];
    }

    method Set(key: Option<string>, data: string, sequence: int, depth: int) returns (next: Option<string>)
      modifies this
      ensures View() == SettingsAfter(old(View()), key, data, depth)
      ensures next == KeyAfter(old(View()), key, data, sequence)
    {
      if key.None? {
        if KindOf(data) == ListOption && data in lists { return None; }
        return Some(data);
      }
      var k := key.value;
      match KindOf(k) {
        case ModeOption =>
          if mode != 0 { return None; }
          mode := ModeCode(data);
        case StringOption =>
          if k !in strings { strings := strings[k := data]; }
        case ListOption =>
          if depth == 1 {
            lists := lists[k := if k in lists then lists[k] + "," + data else data];
          }
        case DumptypeOption =>
          if k in dumptypes { return None; }
          var code := DumptypeCode(data);
          if code.Some? { dumptypes := dumptypes[k := code.value]; }
        case FlagOption =>
          if !(k in flags && flags[k] == 1) {
            flags := flags[k := if Truthy(data) then 1 else 0];
          }
        case Unknown =>
      }
      if sequence == 0 { return None; }
      next := key;
    }

    /** The parser's events, up to the end of the stream or the first parse
        error, whichever ends the list. */
    method LoadFile(events: seq<Event>)
      modifies this
      ensures View() == HandleAll(Loader(old(View()), None, 0, 0), events).settings
    {
      var key: Option<string> := None;
      var depth, sequence := 0, 0;
      var i := 0;
      ghost var result := HandleAll(Loader(View(), None, 0, 0), events);
      while i < |events|
        invariant 0 <= i <= |events|
        invariant HandleAll(Loader(View(), key, depth, sequence), events[i..]) == result
      {
        match events[i] {
          case MappingStart => depth := depth + 1;
          case MappingEnd => depth := depth - 1;
          case SequenceStart => sequence := sequence + 1;
          case SequenceEnd =>
            if key.Some? && sequence == 1 { key := None; }
            sequence := sequence - 1;
          case StreamEnd => key := None;
          case Scalar(data) => key := Set(key, data, sequence, depth);
          case Other =>
        }
        assert events[i + 1..] == events[i..][1..];
        i := i + 1;
      }
    }
  }
}
