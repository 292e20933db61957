/** Startup of zlmb-server: command line, then configuration file, then
    defaults (src/app_server.c, `main`). */
module CommandLine {
  import opened Common
  import opened Text
  import opened Options
  import opened Merge
  import opened Endpoints

  /** One long option with its argument. */
  datatype Argument = Argument(name: string, value: string)

  /** The option that `main` sets: `--client_dumptype` goes to the dump file. */
  function Target(name: string): string {
    if name == "client_dumptype" then "client_dumpfile" else name
  }

  function Value(a: Argument): string {
    if KindOf(a.name) == FlagOption then "true" else a.value
  }

  function Depth(name: string): int {
    if KindOf(name) == ListOption then 1 else 0
  }

  function ParseArguments(s: Settings, args: seq<Argument>): Settings
    decreases args
  {
    if args == [] then s
    else ParseArguments(Assign(s, Target(args[0].name), Value(args[0]), Depth(args[0].name)), args[1..])
  }

  /** `zlmb_option_set_default`. */
  function Default(s: Settings): Settings {
    var t := if "client_dumpfile" in s.strings then s
             else s.(strings := s.strings["client_dumpfile" := "/tmp/zlmb-client-dump.dat"]);
    if "subscribe_dumpfile" in t.strings then t
    else t.(strings := t.strings["subscribe_dumpfile" := "/tmp/zlmb-subscribe-dump.dat"])
  }

  method Startup(args: seq<Argument>, config: Option<seq<Event>>) returns (options: OptionRecord)
    ensures fresh(options)
    ensures options.View() ==
              var s := ParseArguments(INITIAL, args);
              Default(match config
                      case None => s
                      case Some(events) => HandleAll(Loader(s, None, 0, 0), events).settings)
    ensures config.None? ==> exists s :: Commanded(args, s) && WithDefaults(s, options.View())
    ensures forall es :: config == Some(FileEvents(es)) && Readable(ParseArguments(INITIAL, args), es) ==>
              exists s, t :: Commanded(args, s) && Merged(s, es, t) && WithDefaults(t, options.View())
  {
    options := new OptionRecord();
    var i := 0;
    while i < |args|
      invariant 0 <= i <= |args|
      invariant ParseArguments(options.View(), args[i..]) == ParseArguments(INITIAL, args)
    {
      var next := options.Set(Some(Target(args[i].name)), Value(args[i]), 0, Depth(args[i].name));
      assert args[i + 1..] == args[i..][1..];
      i := i + 1;
    }
    if config.Some? {
      options.LoadFile(config.value);
    }
    if "client_dumpfile" !in options.strings {
      options.strings := options.strings["client_dumpfile" := "/tmp/zlmb-client-dump.dat"];
    }
    if "subscribe_dumpfile" !in options.strings {
      options.strings := options.strings["subscribe_dumpfile" := "/tmp/zlmb-subscribe-dump.dat"];
    }
    StartupMeans(args, []);
    forall es | config == Some(FileEvents(es)) {
      StartupMeans(args, es);
    }
  }

  lemma {:induction false} ArgumentsExtend(s: Settings, args: seq<Argument>)
    ensures Extends(s, ParseArguments(s, args))
    decreases args
  {
    if args != [] {
      var t := Assign(s, Target(args[0].name), Value(args[0]), Depth(args[0].name));
      AssignExtends(s, Target(args[0].name), Value(args[0]), Depth(args[0].name));
      ArgumentsExtend(t, args[1..]);
      ExtendsTransitive(s, t, ParseArguments(s, args));
    }
  }

  /** The settings of the command line survive file and defaults. */
  lemma CommandLineWins(args: seq<Argument>, events: seq<Event>)
    ensures var s := ParseArguments(INITIAL, args);
            Extends(s, Default(HandleAll(Loader(s, None, 0, 0), events).settings))
  {
    var s := ParseArguments(INITIAL, args);
    var l := Loader(s, None, 0, 0);
    EventsExtend(l, events);
    ExtendsTransitive(s, HandleAll(l, events).settings, Default(HandleAll(l, events).settings));
  }

  /** The first argument of `--client_dumpfile` or `--client_dumptype`. */
  function FirstDumpArgument(args: seq<Argument>): Option<string> {
    if args == [] then None
    else if args[0].name == "client_dumpfile" || args[0].name == "client_dumptype" then Some(args[0].value)
    else FirstDumpArgument(args[1..])
  }

  /** No command line sets the client's dump type: the argument of
      `--client_dumptype` becomes the dump file, unless one is set. */
  lemma {:induction false} DumptypeArgumentIsLost(s: Settings, args: seq<Argument>)
    requires "client_dumptype" !in s.dumptypes
    ensures "client_dumptype" !in ParseArguments(s, args).dumptypes
    ensures Lookup(ParseArguments(s, args).strings, "client_dumpfile")
            == OrElse(Lookup(s.strings, "client_dumpfile"), FirstDumpArgument(args))
    decreases args
  {
    if args != [] {
      hide AfterArgument, ParseArguments;
      ParseFirst(s, args);
      ArgumentString(s, args[0], "client_dumpfile");
      ArgumentType(s, args[0], "client_dumptype");
      DumptypeArgumentIsLost(AfterArgument(s, args[0]), args[1..]);
    }
  }

  // ----- what a command line means, option by option -----

  const STRINGS := {"client_frontendpoint", "client_dumpfile", "publish_frontendpoint", "publish_backendpoint", "publish_key",
                    "subscribe_backendpoint", "subscribe_key", "subscribe_dumpfile"}
  const LISTS := {"client_backendpoints", "subscribe_frontendpoints"}
  const FLAGS := {"publish_sendkey", "subscribe_dropkey", "syslog", "verbose"}

  /** The argument of the first option of this name. */
  function FirstArgument(args: seq<Argument>, name: string): Option<string> {
    if args == [] then None
    else if args[0].name == name then Some(args[0].value)
    else FirstArgument(args[1..], name)
  }

  /** The first recognised type among the arguments of `--subscribe_dumptype`. */
  function FirstType(args: seq<Argument>): Option<int> {
    if args == [] then None
    else if args[0].name == "subscribe_dumptype" && DumptypeCode(args[0].value).Some? then DumptypeCode(args[0].value)
    else FirstType(args[1..])
  }

  predicate IsGiven(args: seq<Argument>, name: string) {
    exists i :: 0 <= i < |args| && args[i].name == name
  }

  /** The record that a command line asks for: the mode of the first `--mode`,
      the first argument of every option that takes a string (with
      `--client_dumptype` counting as a dump file), all arguments of a list
      option joined by commas, the first recognised dump type of subscribe, and 1
      for exactly the flags that are given. */
  ghost predicate Commanded(args: seq<Argument>, r: Settings) {
    && r.mode == (match FirstArgument(args, "mode") case None => 0 case Some(v) => ModeCode(v))
    && (forall key :: Lookup(r.strings, key) ==
                      if key == "client_dumpfile" then FirstDumpArgument(args)
                      else if key in STRINGS then FirstArgument(args, key) else None)
    && (forall key :: Lookup(r.lists, key) ==
                      if key in LISTS && ListValues(args, key) != [] then Some(Join(ListValues(args, key), ',')) else None)
    && (forall key :: Lookup(r.dumptypes, key) == if key == "subscribe_dumptype" then FirstType(args) else None)
    && (forall key :: Lookup(r.flags, key) == if key in FLAGS && IsGiven(args, key) then Some(1) else None)
  }

  function AfterArgument(s: Settings, a: Argument): Settings {
    Assign(s, Target(a.name), Value(a), Depth(a.name))
  }

  /** Which names are options of which kind. */
  lemma Kinds(name: string)
    ensures KindOf(name) == ModeOption <==> name == "mode"
    ensures KindOf(name) == StringOption <==> name in STRINGS
    ensures KindOf(name) == ListOption <==> name in LISTS
    ensures KindOf(name) == DumptypeOption <==> name == "client_dumptype" || name == "subscribe_dumptype"
    ensures KindOf(name) == FlagOption <==> name in FLAGS
  {
  }

  /** Where an argument goes. */
  lemma Targets(a: Argument)
    ensures Target(a.name) == if a.name == "client_dumptype" then "client_dumpfile" else a.name
    ensures KindOf(Target(a.name)) == if a.name == "client_dumptype" then StringOption else KindOf(a.name)
  {
    hide KindOf;
    Kinds("client_dumpfile");
  }

  lemma ArgumentMode(s: Settings, a: Argument)
    ensures AfterArgument(s, a).mode == if s.mode == 0 && a.name == "mode" then ModeCode(a.value) else s.mode
  {
    hide KindOf, Target, DumptypeCode, Truthy, ModeCode;
    Kinds(a.name);
    Kinds(Target(a.name));
    Targets(a);
  }

  lemma ArgumentString(s: Settings, a: Argument, key: string)
    ensures Lookup(AfterArgument(s, a).strings, key) ==
            if key == "client_dumpfile" then
              OrElse(Lookup(s.strings, key), if a.name == "client_dumpfile" || a.name == "client_dumptype" then Some(a.value) else None)
            else OrElse(Lookup(s.strings, key), if key in STRINGS && a.name == key then Some(a.value) else None)
  {
    hide KindOf, Target, DumptypeCode, Truthy, ModeCode;
    Kinds(a.name);
    Kinds(Target(a.name));
    Targets(a);
    Kinds(key);
  }

  lemma ArgumentType(s: Settings, a: Argument, key: string)
    ensures Lookup(AfterArgument(s, a).dumptypes, key) ==
            OrElse(Lookup(s.dumptypes, key), if key == "subscribe_dumptype" && a.name == key then DumptypeCode(a.value) else None)
  {
    hide KindOf, Target, DumptypeCode, Truthy, ModeCode;
    Kinds(a.name);
    Kinds(Target(a.name));
    Targets(a);
    Kinds(key);
  }

  lemma ArgumentFlag(s: Settings, a: Argument, key: string)
    ensures Lookup(AfterArgument(s, a).flags, key) == if key in FLAGS && a.name == key then Some(1) else Lookup(s.flags, key)
  {
    hide KindOf, Target, DumptypeCode, ModeCode;
    Kinds(a.name);
    Kinds(Target(a.name));
    Targets(a);
    Kinds(key);
    assert Truthy("true");
  }

  lemma ArgumentNoList(s: Settings, a: Argument, key: string)
    requires key !in LISTS
    ensures Lookup(AfterArgument(s, a).lists, key) == Lookup(s.lists, key)
  {
    hide KindOf, Target, DumptypeCode, Truthy, ModeCode;
    Kinds(a.name);
    Kinds(Target(a.name));
    Targets(a);
    Kinds(key);
  }

  lemma GivenFirst(args: seq<Argument>, name: string)
    requires args != []
    ensures IsGiven(args, name) <==> args[0].name == name || IsGiven(args[1..], name)
  {
    if IsGiven(args, name) && args[0].name != name {
      var i :| 0 <= i < |args| && args[i].name == name;
      assert args[1..][i - 1].name == name;
    }
    if IsGiven(args[1..], name) {
      var i :| 0 <= i < |args[1..]| && args[1..][i].name == name;
      assert args[i + 1].name == name;
    }
  }

  lemma {:induction false} ArgumentsForKey(s: Settings, args: seq<Argument>, key: string)
    ensures var r := ParseArguments(s, args);
            && r.mode == (if s.mode != 0 then s.mode
                          else match FirstArgument(args, "mode") case None => 0 case Some(v) => ModeCode(v))
            && Lookup(r.strings, key) ==
               OrElse(Lookup(s.strings, key),
                      if key == "client_dumpfile" then FirstDumpArgument(args)
                      else if key in STRINGS then FirstArgument(args, key) else None)
            && Lookup(r.dumptypes, key) == OrElse(Lookup(s.dumptypes, key), if key == "subscribe_dumptype" then FirstType(args) else None)
            && Lookup(r.flags, key) == (if key in FLAGS && IsGiven(args, key) then Some(1) else Lookup(s.flags, key))
            && (key !in LISTS ==> Lookup(r.lists, key) == Lookup(s.lists, key))
    decreases args
  {
    hide AfterArgument, DumptypeCode, ModeCode, Lookup, IsGiven;
    if args == [] {
      NothingGiven(key);
    } else {
      var t := AfterArgument(s, args[0]);
      ParseFirst(s, args);
      ArgumentMode(s, args[0]);
      ArgumentString(s, args[0], key);
      ArgumentType(s, args[0], key);
      ArgumentFlag(s, args[0], key);
      if key !in LISTS {
        ArgumentNoList(s, args[0], key);
      }
      GivenFirst(args, key);
      ArgumentsForKey(t, args[1..], key);
    }
  }

  lemma NothingGiven(name: string)
    ensures !IsGiven([], name)
  {
  }

  lemma ParseFirst(s: Settings, args: seq<Argument>)
    requires args != []
    ensures ParseArguments(s, args) == ParseArguments(AfterArgument(s, args[0]), args[1..])
  {
    hide Assign;
  }

  /** The command line does what it asks for, whatever it is. */
  lemma ArgumentsMean(args: seq<Argument>)
    ensures Commanded(args, ParseArguments(INITIAL, args))
  {
    hide ParseArguments, DumptypeCode, ModeCode, Lookup, IsGiven;
    NothingSet();
    forall key {
      ArgumentsForKey(INITIAL, args, key);
    }
    forall key
      ensures Lookup(ParseArguments(INITIAL, args).lists, key) ==
              if key in LISTS && ListValues(args, key) != [] then Some(Join(ListValues(args, key), ',')) else None
    {
      if key in LISTS {
        ListIsJoin(args, key);
      } else {
        ArgumentsForKey(INITIAL, args, key);
      }
    }
  }

  lemma NothingSet()
    ensures INITIAL.mode == 0
    ensures forall key :: Lookup(INITIAL.strings, key) == None && Lookup(INITIAL.lists, key) == None
    ensures forall key :: Lookup(INITIAL.dumptypes, key) == None && Lookup(INITIAL.flags, key) == None
  {
  }

  /** The defaults: `r` is `s` but for the two dump files, which have their
      default path exactly if `s` has none. */
  ghost predicate WithDefaults(s: Settings, r: Settings) {
    && r.mode == s.mode && r.lists == s.lists && r.dumptypes == s.dumptypes && r.flags == s.flags
    && (forall key :: Lookup(r.strings, key) ==
                      OrElse(Lookup(s.strings, key),
                             if key == "client_dumpfile" then Some("/tmp/zlmb-client-dump.dat")
                             else if key == "subscribe_dumpfile" then Some("/tmp/zlmb-subscribe-dump.dat")
                             else None))
  }

  lemma DefaultsMean(s: Settings)
    ensures WithDefaults(s, Default(s))
  {
  }

  /** Startup without a file, and with a readable one: the command line as it is
      asked for, the file merged into it, and the defaults. */
  lemma StartupMeans(args: seq<Argument>, es: seq<Entry>)
    ensures var s := ParseArguments(INITIAL, args);
            && Commanded(args, s)
            && WithDefaults(s, Default(s))
            && (Readable(s, es) ==>
                  var t := HandleAll(Loader(s, None, 0, 0), FileEvents(es)).settings;
                  Merged(s, es, t) && WithDefaults(t, Default(t)))
  {
    hide Commanded, WithDefaults, Merged, Readable, ParseArguments, Default;
    var s := ParseArguments(INITIAL, args);
    ArgumentsMean(args);
    DefaultsMean(s);
    if Readable(s, es) {
      LoadIsMerge(s, es);
      DefaultsMean(HandleAll(Loader(s, None, 0, 0), FileEvents(es)).settings);
    }
  }

  // ----- list options and endpoints -----

  /** The values given for one list option. */
  function ListValues(args: seq<Argument>, key: string): seq<string> {
    if args == [] then []
    else (if args[0].name == key then [args[0].value] else []) + ListValues(args[1..], key)
  }

  lemma ListStep(s: Settings, a: Argument, key: string)
    requires KindOf(key) == ListOption
    ensures var t := Assign(s, Target(a.name), Value(a), Depth(a.name));
            Lookup(t.lists, key) ==
            if a.name != key then Lookup(s.lists, key)
            else if key in s.lists then Some(s.lists[key] + "," + a.value)
            else Some(a.value)
  {
    assert KindOf("client_dumptype") != ListOption && KindOf("client_dumpfile") != ListOption;
  }

  /** `_option_append` for one value after the other. */
  function Accumulate(list: Option<string>, values: seq<string>): Option<string>
    decreases values
  {
    if values == [] then list
    else Accumulate(Some(if list.Some? then list.value + "," + values[0] else values[0]), values[1..])
  }

  lemma {:induction false} ListGrows(s: Settings, args: seq<Argument>, key: string)
    requires KindOf(key) == ListOption
    ensures Lookup(ParseArguments(s, args).lists, key) == Accumulate(Lookup(s.lists, key), ListValues(args, key))
    decreases args
  {
    if args != [] {
      var a := args[0];
      ListStep(s, a, key);
      ListGrows(Assign(s, Target(a.name), Value(a), Depth(a.name)), args[1..], key);
      var rest := ListValues(args[1..], key);
      assert ([a.value] + rest)[1..] == rest && [] + rest == rest;
    }
  }

  lemma {:induction false} AccumulateJoins(before: seq<string>, values: seq<string>)
    requires before != []
    ensures Accumulate(Some(Join(before, ',')), values) == Some(Join(before + values, ','))
    decreases values
  {
    if values == [] {
      assert before + values == before;
    } else {
      JoinSnoc(before, values[0], ',');
      AccumulateJoins(before + [values[0]], values[1..]);
      assert before + [values[0]] + values[1..] == before + values;
    }
  }

  lemma ListIsJoin(args: seq<Argument>, key: string)
    requires KindOf(key) == ListOption
    ensures var all := ListValues(args, key);
            Lookup(ParseArguments(INITIAL, args).lists, key) == if all == [] then None else Some(Join(all, ','))
  {
    hide KindOf, ListValues, ParseArguments;
    ListGrows(INITIAL, args, key);
    var all := ListValues(args, key);
    if all != [] {
      AccumulateJoins([all[0]], all[1..]);
      assert [all[0]] + all[1..] == all;
    }
  }

  /** Splitting undoes joining: the segments of a list option are the segments
      of every value given, in order. */
  lemma ListSegments(args: seq<Argument>, key: string)
    requires KindOf(key) == ListOption
    ensures match Lookup(ParseArguments(INITIAL, args).lists, key)
            case None => ListValues(args, key) == []
            case Some(list) => Split(list, ',') == SplitAll(ListValues(args, key), ',')
  {
    ListIsJoin(args, key);
    var all := ListValues(args, key);
    if all != [] {
      SplitJoin(all, ',');
    }
  }

  /** The same for a list from the configuration file. */
  lemma {:induction false} FileListSegments(es: seq<Entry>, key: string)
    requires FirstList(es, key).Some?
    ensures exists i :: 0 <= i < |es| && es[i].key == key && Split(FirstList(es, key).value, ',') == SplitAll(Given(es[i].value), ',')
  {
    if es[0].key == key && Given(es[0].value) != [] {
      SplitJoin(Given(es[0].value), ',');
    } else {
      FileListSegments(es[1..], key);
      var i :| 0 <= i < |es[1..]| && es[1..][i].key == key
               && Split(FirstList(es[1..], key).value, ',') == SplitAll(Given(es[1..][i].value), ',');
      assert es[i + 1] == es[1..][i];
    }
  }

  /** Single endpoints, one per option: the client's sockets are for exactly the
      endpoints given, in order. */
  method ClientEndpoints(args: seq<Argument>) returns (sockets: Option<seq<string>>)
    requires forall v :: v in ListValues(args, "client_backendpoints") ==> v != [] && ',' !in v && NUL !in v
    requires ListValues(args, "client_backendpoints") != []
    ensures sockets == Some(Stripped(ListValues(args, "client_backendpoints")))
  {
    var options := Startup(args, None);
    ghost var given := ListValues(args, "client_backendpoints");
    ListSegments(args, "client_backendpoints");
    ListIsJoin(args, "client_backendpoints");
    SplitAllWithoutSeparator(given, ',');
    JoinWithoutNul(given);
    sockets := ClientPublishInit(options.lists["client_backendpoints"]);
  }

  lemma {:induction false} JoinWithoutNul(vs: seq<string>)
    requires vs != [] && forall v :: v in vs ==> NUL !in v
    ensures NUL !in Join(vs, ',')
  {
    if |vs| > 1 {
      JoinWithoutNul(vs[..|vs| - 1]);
    }
  }
}
