/** What loading a configuration file means: a merge, option by option, in which
    earlier settings win. */
module Merge {
  import opened Common
  import opened Text
  import opened Options

  datatype Value = Plain(text: string) | Items(items: seq<string>)
  datatype Entry = Entry(key: string, value: Value)

  // ----- the parser's events for a file -----

  function Scalars(items: seq<string>): seq<Event> {
    if items == [] then [] else [Scalar(items[0])] + Scalars(items[1..])
  }

  function EntryEvents(e: Entry): seq<Event> {
    [Scalar(e.key)] +
    match e.value
    case Plain(text) => [Scalar(text)]
    case Items(items) => [SequenceStart] + Scalars(items) + [SequenceEnd]
  }

  function BodyEvents(es: seq<Entry>): seq<Event> {
    if es == [] then [] else EntryEvents(es[0]) + BodyEvents(es[1..])
  }

  /** Stream, document and mapping, each opened and closed. */
  function FileEvents(es: seq<Entry>): seq<Event> {
    [Other, Other, MappingStart] + BodyEvents(es) + [MappingEnd, Other, StreamEnd]
  }

  // ----- the declarative merge -----

  function Lookup<V>(m: map<string, V>, key: string): Option<V> {
    if key in m then Some(m[key]) else None
  }

  function OrElse<V>(first: Option<V>, second: Option<V>): Option<V> {
    if first.Some? then first else second
  }

  /** The first value given for `key`. */
  function FirstText(es: seq<Entry>, key: string): Option<string> {
    if es == [] then None
    else if es[0].key == key && es[0].value.Plain? then Some(es[0].value.text)
    else FirstText(es[1..], key)
  }

  /** The first recognised dump type given for `key`. */
  function FirstCode(es: seq<Entry>, key: string): Option<int> {
    if es == [] then None
    else if es[0].key == key && es[0].value.Plain? && DumptypeCode(es[0].value.text).Some?
    then DumptypeCode(es[0].value.text)
    else FirstCode(es[1..], key)
  }

  function Given(v: Value): seq<string> {
    match v
    case Plain(text) => [text]
    case Items(items) => items
  }

  /** The first non-empty list given for `key`, joined by commas. */
  function FirstList(es: seq<Entry>, key: string): Option<string> {
    if es == [] then None
    else if es[0].key == key && Given(es[0].value) != [] then Some(Join(Given(es[0].value), ','))
    else FirstList(es[1..], key)
  }

  predicate Mentioned(es: seq<Entry>, key: string) {
    exists i :: 0 <= i < |es| && es[i].key == key && es[i].value.Plain?
  }

  predicate SaysTrue(es: seq<Entry>, key: string) {
    exists i :: 0 <= i < |es| && es[i].key == key && es[i].value.Plain? && Truthy(es[i].value.text)
  }

  function FlagMerge(flag: Option<int>, es: seq<Entry>, key: string): Option<int> {
    if flag == Some(1) || SaysTrue(es, key) then Some(1)
    else if Mentioned(es, key) then Some(0)
    else flag
  }

  /** `r` is the merge of the file into `s`, for every option name. */
  ghost predicate Merged(s: Settings, es: seq<Entry>, r: Settings) {
    && r.mode == (if s.mode != 0 then s.mode
                  else match FirstText(es, "mode") case None => 0 case Some(t) => ModeCode(t))
    && (forall key :: Lookup(r.strings, key) ==
                      if KindOf(key) == StringOption then OrElse(Lookup(s.strings, key), FirstText(es, key))
                      else Lookup(s.strings, key))
    && (forall key :: Lookup(r.lists, key) ==
                      if KindOf(key) == ListOption then OrElse(Lookup(s.lists, key), FirstList(es, key))
                      else Lookup(s.lists, key))
    && (forall key :: Lookup(r.dumptypes, key) ==
                      if KindOf(key) == DumptypeOption then OrElse(Lookup(s.dumptypes, key), FirstCode(es, key))
                      else Lookup(s.dumptypes, key))
    && (forall key :: Lookup(r.flags, key) ==
                      if KindOf(key) == FlagOption then FlagMerge(Lookup(s.flags, key), es, key)
                      else Lookup(s.flags, key))
  }

  // ----- which files the loader reads in step -----

  /** The documented shapes: list options as a string or a sequence whose items
      are not option names, every other option as a string. */
  predicate Documented(e: Entry) {
    match KindOf(e.key)
    case ListOption => e.value.Items? ==> forall i :: 0 <= i < |e.value.items| ==> KindOf(e.value.items[i]) == Unknown
    case Unknown => true
    case _ => e.value.Plain?
  }

  /** A list option that is set already must not come as a plain string (unless
      that string names a list option that is set as well). */
  predicate InStep(s: Settings, e: Entry) {
    KindOf(e.key) == ListOption && e.key in s.lists && e.value.Plain? ==>
      KindOf(e.value.text) == ListOption && e.value.text in s.lists
  }

  /** One entry of the merge. */
  function MergeEntry(s: Settings, e: Entry): Settings {
    if KindOf(e.key) == ListOption then
      if e.key in s.lists || Given(e.value) == [] then s
      else s.(lists := s.lists[e.key := Join(Given(e.value), ',')])
    else if e.value.Plain? then Assign(s, e.key, e.value.text, 1)
    else s
  }

  function MergeAll(s: Settings, es: seq<Entry>): Settings
    decreases es
  {
    if es == [] then s else MergeAll(MergeEntry(s, es[0]), es[1..])
  }

  predicate Readable(s: Settings, es: seq<Entry>)
    decreases es
  {
    es != [] ==> Documented(es[0]) && InStep(s, es[0]) && Readable(MergeEntry(s, es[0]), es[1..])
  }

  /** Files that give every list option as a sequence are readable whatever was
      set before. */
  lemma {:induction false} SequencesAreReadable(s: Settings, es: seq<Entry>)
    requires forall i :: 0 <= i < |es| ==> Documented(es[i]) && (KindOf(es[i].key) == ListOption ==> es[i].value.Items?)
    ensures Readable(s, es)
    decreases es
  {
    if es != [] {
      SequencesAreReadable(MergeEntry(s, es[0]), es[1..]);
    }
  }

  // ----- the loader follows the merge -----

  /** A run of items under a key that is kept: appended, or without effect. */
  function AssignItems(s: Settings, key: string, items: seq<string>): Settings
    decreases items
  {
    if items == [] then s else AssignItems(Assign(s, key, items[0], 1), key, items[1..])
  }

  lemma {:induction false} ItemsUnderKey(s: Settings, key: string, items: seq<string>)
    requires KindOf(key) == ListOption || KindOf(key) == Unknown
    ensures HandleAll(Loader(s, Some(key), 1, 1), Scalars(items)) == Loader(AssignItems(s, key, items), Some(key), 1, 1)
    decreases items
  {
    if items != [] {
      assert Handle(Loader(s, Some(key), 1, 1), Scalar(items[0])) == Loader(Assign(s, key, items[0], 1), Some(key), 1, 1);
      ItemsUnderKey(Assign(s, key, items[0], 1), key, items[1..]);
      assert Scalars(items)[1..] == Scalars(items[1..]);
    }
  }

  lemma {:induction false} UnknownItems(s: Settings, key: string, items: seq<string>)
    requires KindOf(key) == Unknown
    ensures AssignItems(s, key, items) == s
  {
    if items != [] {
      UnknownItems(s, key, items[1..]);
    }
  }

  lemma {:induction false} AppendedItems(s: Settings, key: string, items: seq<string>, before: seq<string>)
    requires KindOf(key) == ListOption && before != []
    requires key in s.lists && s.lists[key] == Join(before, ',')
    ensures AssignItems(s, key, items) == s.(lists := s.lists[key := Join(before + items, ',')])
    decreases items
  {
    hide KindOf, ModeCode, DumptypeCode, Truthy, Join;
    if items == [] {
      assert before + items == before;
      assert s.lists[key := s.lists[key]] == s.lists;
    } else {
      JoinSnoc(before, items[0], ',');
      AppendedItems(Assign(s, key, items[0], 1), key, items[1..], before + [items[0]]);
      assert before + [items[0]] + items[1..] == before + items;
    }
  }

  lemma ListItems(s: Settings, key: string, items: seq<string>)
    requires KindOf(key) == ListOption && key !in s.lists
    ensures AssignItems(s, key, items) == MergeEntry(s, Entry(key, Items(items)))
  {
    hide KindOf, ModeCode, DumptypeCode, Truthy;
    if items != [] {
      AppendedItems(Assign(s, key, items[0], 1), key, items[1..], [items[0]]);
      assert [items[0]] + items[1..] == items;
    }
  }

  lemma SequenceEntry(s: Settings, e: Entry)
    requires e.value.Items? && Documented(e)
    ensures HandleAll(Loader(s, None, 1, 0), EntryEvents(e)) == Loader(MergeEntry(s, e), None, 1, 0)
  {
    var items := e.value.items;
    var l0 := Loader(s, None, 1, 0);
    var l1 := Handle(l0, Scalar(e.key));
    var l2 := Handle(l1, SequenceStart);
    HandleTwo(l0, Scalar(e.key), SequenceStart, Scalars(items) + [SequenceEnd]);
    assert EntryEvents(e) == [Scalar(e.key), SequenceStart] + (Scalars(items) + [SequenceEnd]);
    HandleAllAppend(l2, Scalars(items), [SequenceEnd]);
    HandleOne(HandleAll(l2, Scalars(items)), SequenceEnd);
    if l1.key.Some? {
      ItemsUnderKey(s, e.key, items);
      if KindOf(e.key) == Unknown {
        UnknownItems(s, e.key, items);
      } else {
        ListItems(s, e.key, items);
      }
    } else if items != [] {
      assert Scalars(items)[1..] == Scalars(items[1..]);
      assert Handle(l2, Scalar(items[0])) == Loader(s, Some(items[0]), 1, 1);
      ItemsUnderKey(s, items[0], items[1..]);
      UnknownItems(s, items[0], items[1..]);
    }
  }

  lemma HandleOne(l: Loader, e: Event)
    ensures HandleAll(l, [e]) == Handle(l, e)
  {
    assert [e][1..] == [];
  }

  lemma HandleTwo(l: Loader, a: Event, b: Event, rest: seq<Event>)
    ensures HandleAll(l, [a, b] + rest) == HandleAll(Handle(Handle(l, a), b), rest)
  {
    assert ([a, b] + rest)[1..] == [b] + rest;
    assert ([b] + rest)[1..] == rest;
  }

  /** For an entry of a documented shape: the loader merges it and waits for the
      next key exactly when the entry is in step. */
  lemma EntryInStep(s: Settings, e: Entry)
    requires Documented(e)
    ensures HandleAll(Loader(s, None, 1, 0), EntryEvents(e)) == Loader(MergeEntry(s, e), None, 1, 0)
            <==> InStep(s, e)
  {
    match e.value
    case Items(_) => SequenceEntry(s, e);
    case Plain(text) =>
      HandleTwo(Loader(s, None, 1, 0), Scalar(e.key), Scalar(text), []);
      assert [Scalar(e.key), Scalar(text)] + [] == EntryEvents(e);
  }

  lemma {:induction false} BodyInStep(s: Settings, es: seq<Entry>)
    requires Readable(s, es)
    ensures HandleAll(Loader(s, None, 1, 0), BodyEvents(es)) == Loader(MergeAll(s, es), None, 1, 0)
    decreases es
  {
    if es != [] {
      EntryInStep(s, es[0]);
      HandleAllAppend(Loader(s, None, 1, 0), EntryEvents(es[0]), BodyEvents(es[1..]));
      BodyInStep(MergeEntry(s, es[0]), es[1..]);
    }
  }

  lemma FirstEntries(es: seq<Entry>, k: nat)
    requires 0 < k <= |es|
    ensures es[..k][0] == es[0] && es[..k][1..] == es[1..][..k - 1]
  {
  }

  /** After the first `k` entries the loader has merged them and waits for a key. */
  ghost predicate InStepAfter(s: Settings, es: seq<Entry>, k: nat)
    requires k <= |es|
  {
    HandleAll(Loader(s, None, 1, 0), BodyEvents(es[..k])) == Loader(MergeAll(s, es[..k]), None, 1, 0)
  }

  lemma InStepFirst(s: Settings, es: seq<Entry>, k: nat)
    requires 0 < k <= |es| && Documented(es[0]) && InStep(s, es[0])
    ensures InStepAfter(s, es, k) <==> InStepAfter(MergeEntry(s, es[0]), es[1..], k - 1)
  {
    hide HandleAll, MergeEntry, InStep, Documented, EntryEvents;
    FirstEntries(es, k);
    EntryInStep(s, es[0]);
    HandleAllAppend(Loader(s, None, 1, 0), EntryEvents(es[0]), BodyEvents(es[1..][..k - 1]));
  }

  lemma InStepOne(s: Settings, es: seq<Entry>)
    requires es != [] && Documented(es[0])
    ensures InStepAfter(s, es, 1) <==> InStep(s, es[0])
  {
    hide HandleAll, MergeEntry, InStep, Documented, EntryEvents;
    EntryInStep(s, es[0]);
    assert es[..1] == [es[0]] && es[..1][1..] == [];
    assert EntryEvents(es[0]) + [] == EntryEvents(es[0]);
    assert BodyEvents(es[..1]) == EntryEvents(es[0]);
    assert MergeAll(s, es[..1]) == MergeEntry(s, es[0]);
  }

  /** For a whole file of documented shape: the loader is in step with the merge
      after every entry if and only if the file is readable. */
  lemma {:induction false} FileInStep(s: Settings, es: seq<Entry>)
    requires forall i :: 0 <= i < |es| ==> Documented(es[i])
    ensures Readable(s, es) <==> forall k :: 0 <= k <= |es| ==> InStepAfter(s, es, k)
    decreases es
  {
    hide InStepAfter, MergeEntry, InStep, Documented;
    InStepAtStart(s, es);
    if es != [] {
      InStepOne(s, es);
      if InStep(s, es[0]) {
        FileInStep(MergeEntry(s, es[0]), es[1..]);
        forall k | 0 < k <= |es|
          ensures InStepAfter(s, es, k) <==> InStepAfter(MergeEntry(s, es[0]), es[1..], k - 1)
        {
          InStepFirst(s, es, k);
        }
        forall k | 0 <= k <= |es| - 1
          ensures InStepAfter(MergeEntry(s, es[0]), es[1..], k) <==> InStepAfter(s, es, k + 1)
        {
        }
      }
    }
  }

  lemma InStepAtStart(s: Settings, es: seq<Entry>)
    ensures InStepAfter(s, es, 0)
  {
    assert es[..0] == [];
  }

  // ----- the merge, option by option -----

  lemma ModeName(key: string)
    ensures KindOf(key) == ModeOption <==> key == "mode"
  {
  }

  lemma ModeStep(s: Settings, es: seq<Entry>)
    requires es != [] && Documented(es[0])
    ensures var t := MergeEntry(s, es[0]);
            (if s.mode != 0 then s.mode else match FirstText(es, "mode") case None => 0 case Some(m) => ModeCode(m))
            == (if t.mode != 0 then t.mode else match FirstText(es[1..], "mode") case None => 0 case Some(m) => ModeCode(m))
  {
    ModeName(es[0].key);
  }

  lemma StringStep(s: Settings, es: seq<Entry>, key: string)
    requires es != [] && Documented(es[0])
    ensures var t := MergeEntry(s, es[0]);
            if KindOf(key) == StringOption
            then OrElse(Lookup(s.strings, key), FirstText(es, key)) == OrElse(Lookup(t.strings, key), FirstText(es[1..], key))
            else Lookup(s.strings, key) == Lookup(t.strings, key)
  {
  }

  lemma ListStep(s: Settings, es: seq<Entry>, key: string)
    requires es != [] && Documented(es[0])
    ensures var t := MergeEntry(s, es[0]);
            if KindOf(key) == ListOption
            then OrElse(Lookup(s.lists, key), FirstList(es, key)) == OrElse(Lookup(t.lists, key), FirstList(es[1..], key))
            else Lookup(s.lists, key) == Lookup(t.lists, key)
  {
  }

  lemma DumptypeStep(s: Settings, es: seq<Entry>, key: string)
    requires es != [] && Documented(es[0])
    ensures var t := MergeEntry(s, es[0]);
            if KindOf(key) == DumptypeOption
            then OrElse(Lookup(s.dumptypes, key), FirstCode(es, key)) == OrElse(Lookup(t.dumptypes, key), FirstCode(es[1..], key))
            else Lookup(s.dumptypes, key) == Lookup(t.dumptypes, key)
  {
  }

  lemma FlagStep(s: Settings, es: seq<Entry>, key: string)
    requires es != [] && Documented(es[0])
    ensures var t := MergeEntry(s, es[0]);
            if KindOf(key) == FlagOption
            then FlagMerge(Lookup(s.flags, key), es, key) == FlagMerge(Lookup(t.flags, key), es[1..], key)
            else Lookup(s.flags, key) == Lookup(t.flags, key)
  {
    MentionedFirst(es, key);
  }

  lemma MentionedFirst(es: seq<Entry>, key: string)
    requires es != []
    ensures Mentioned(es, key) <==> (es[0].key == key && es[0].value.Plain?) || Mentioned(es[1..], key)
    ensures SaysTrue(es, key) <==>
            (es[0].key == key && es[0].value.Plain? && Truthy(es[0].value.text)) || SaysTrue(es[1..], key)
  {
    assert es == [es[0]] + es[1..];
  }

  lemma FirstEntry(s: Settings, es: seq<Entry>, r: Settings)
    requires es != [] && Documented(es[0])
    requires Merged(MergeEntry(s, es[0]), es[1..], r)
    ensures Merged(s, es, r)
  {
    ModeStep(s, es);
    forall key {
      StringStep(s, es, key);
    }
    forall key {
      ListStep(s, es, key);
    }
    forall key {
      DumptypeStep(s, es, key);
    }
    forall key {
      FlagStep(s, es, key);
    }
  }

  lemma {:induction false} MergeAllMeans(s: Settings, es: seq<Entry>)
    requires Readable(s, es)
    ensures Merged(s, es, MergeAll(s, es))
    decreases es
  {
    if es != [] {
      MergeAllMeans(MergeEntry(s, es[0]), es[1..]);
      FirstEntry(s, es, MergeAll(s, es));
    }
  }

  lemma FileBegins(s: Settings, rest: seq<Event>)
    ensures HandleAll(Loader(s, None, 0, 0), [Other, Other, MappingStart] + rest) == HandleAll(Loader(s, None, 1, 0), rest)
  {
    HandleTwo(Loader(s, None, 0, 0), Other, Other, [MappingStart] + rest);
    assert [Other, Other] + ([MappingStart] + rest) == [Other, Other, MappingStart] + rest;
    assert ([MappingStart] + rest)[1..] == rest;
  }

  lemma FileEnds(s: Settings)
    ensures HandleAll(Loader(s, None, 1, 0), [MappingEnd, Other, StreamEnd]).settings == s
  {
    HandleTwo(Loader(s, None, 1, 0), MappingEnd, Other, [StreamEnd]);
    HandleOne(Loader(s, None, 0, 0), StreamEnd);
    assert [MappingEnd, Other] + [StreamEnd] == [MappingEnd, Other, StreamEnd];
  }

  /** The loader computes the merge. */
  lemma LoadIsMerge(s: Settings, es: seq<Entry>)
    requires Readable(s, es)
    ensures Merged(s, es, HandleAll(Loader(s, None, 0, 0), FileEvents(es)).settings)
  {
    var tail := [MappingEnd, Other, StreamEnd];
    assert FileEvents(es) == [Other, Other, MappingStart] + (BodyEvents(es) + tail);
    FileBegins(s, BodyEvents(es) + tail);
    HandleAllAppend(Loader(s, None, 1, 0), BodyEvents(es), tail);
    BodyInStep(s, es);
    FileEnds(MergeAll(s, es));
    MergeAllMeans(s, es);
  }

  /** Out of step: after a plain string for a list option that is set, the
      string is kept as a key, and the loader stays one scalar behind, so a
      following pair of plain scalars is read as value and key and not merged. */
  lemma PlainListShifts(s: Settings, list: string, text: string, key: string, value: string)
    requires KindOf(list) == ListOption && list in s.lists
    requires KindOf(text) == Unknown && !(KindOf(value) == ListOption && value in s.lists)
    ensures HandleAll(Loader(s, None, 1, 0), EntryEvents(Entry(list, Plain(text))) + EntryEvents(Entry(key, Plain(value))))
            == Loader(s, Some(value), 1, 0)
  {
    HandleTwo(Loader(s, None, 1, 0), Scalar(list), Scalar(text), [Scalar(key), Scalar(value)]);
    HandleTwo(Loader(s, Some(text), 1, 0), Scalar(key), Scalar(value), []);
    assert [Scalar(key), Scalar(value)] + [] == [Scalar(key), Scalar(value)];
    assert EntryEvents(Entry(list, Plain(text))) + EntryEvents(Entry(key, Plain(value)))
        == [Scalar(list), Scalar(text)] + [Scalar(key), Scalar(value)];
  }

  // ----- monotonicity, for all events whatsoever -----

  /** What is set stays: strings, mode and dump types keep their value, true
      flags stay true, lists only grow at the end. */
  ghost predicate Extends(s: Settings, t: Settings) {
    && (s.mode != 0 ==> t.mode == s.mode)
    && (forall key :: key in s.strings ==> key in t.strings && t.strings[key] == s.strings[key])
    && (forall key :: key in s.dumptypes ==> key in t.dumptypes && t.dumptypes[key] == s.dumptypes[key])
    && (forall key :: key in s.flags && s.flags[key] == 1 ==> key in t.flags && t.flags[key] == 1)
    && (forall key :: key in s.lists ==> key in t.lists && s.lists[key] <= t.lists[key])
  }

  lemma AssignExtends(s: Settings, key: string, data: string, depth: int)
    ensures Extends(s, Assign(s, key, data, depth))
  {
    hide KindOf, ModeCode, DumptypeCode, Truthy;
    if key in s.lists {
      Prefix(s.lists[key], ",", data);
    }
  }

  lemma Prefix(a: string, b: string, c: string)
    ensures a <= a + b + c
  {
  }

  lemma {:induction false} EventsExtend(l: Loader, es: seq<Event>)
    ensures Extends(l.settings, HandleAll(l, es).settings)
    decreases es
  {
    hide KindOf, ModeCode, DumptypeCode, Truthy, Extends, Assign;
    if es == [] {
      ExtendsReflexive(l.settings);
    } else {
      if l.key.Some? && es[0].Scalar? {
        AssignExtends(l.settings, l.key.value, es[0].value, l.depth);
      } else {
        ExtendsReflexive(l.settings);
      }
      EventsExtend(Handle(l, es[0]), es[1..]);
      ExtendsTransitive(l.settings, Handle(l, es[0]).settings, HandleAll(l, es).settings);
    }
  }

  lemma ExtendsReflexive(s: Settings)
    ensures Extends(s, s)
  {
  }

  lemma ExtendsTransitive(s: Settings, t: Settings, u: Settings)
    requires Extends(s, t) && Extends(t, u)
    ensures Extends(s, u)
  {
    forall key | key in s.lists
      ensures key in u.lists && s.lists[key] <= u.lists[key]
    {
      assert s.lists[key] <= t.lists[key] <= u.lists[key];
    }
  }
}
