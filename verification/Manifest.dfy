/**
 The streaming manifest resolver: a state machine driven by the tokens of a JSON text, against the ordinary lookup
 in the parsed tree.
 */
module Manifest {
  import opened Options

  // ---------------------------------------------------------------- JSON

  datatype Json = Str(text: string) | Scalar | Obj(members: Members) | Arr(items: Items)
  datatype Members = NoMembers | Cons(key: string, value: Json, rest: Members)
  datatype Items = NoItems | Item(head: Json, tail: Items)

  datatype Token = KeyValue(key: string) | StringValue(text: string) | OtherValue | StartObject | EndObject
    | StartArray | EndArray

  function Tokens(v: Json): seq<Token> {
    match v
    case Str(s) => [StringValue(s)]
    case Scalar => [OtherValue]
    case Obj(ms) => [StartObject] + MemberTokens(ms) + [EndObject]
    case Arr(items) => [StartArray] + ItemTokens(items) + [EndArray]
  }

  function MemberTokens(ms: Members): seq<Token> {
    match ms
    case NoMembers => []
    case Cons(key, v, rest) => [KeyValue(key)] + Tokens(v) + MemberTokens(rest)
  }

  function ItemTokens(items: Items): seq<Token> {
    match items
    case NoItems => []
    case Item(v, rest) => Tokens(v) + ItemTokens(rest)
  }

  /** The value under `key`. */
  function Get(ms: Members, key: string): Option<Json> {
    match ms
    case NoMembers => None
    case Cons(k, v, rest) => if k == key then Some(v) else Get(rest, key)
  }

  predicate DistinctKeys(v: Json) {
    v.Obj? ==> MembersDistinct(v.members)
  }

  predicate MembersDistinct(ms: Members) {
    ms.NoMembers? || (Get(ms.rest, ms.key).None? && DistinctKeys(ms.value) && MembersDistinct(ms.rest))
  }

  // ---------------------------------------------------------------- lookup in the tree

  /** `path` without its trailing slashes. */
  function Trim(path: string): (t: string)
    ensures |t| <= |path| && t == path[..|t|] && (t != "" ==> t[|t| - 1] != '/')
    ensures forall i :: |t| <= i < |path| ==> path[i] == '/'
  {
    if path != "" && path[|path| - 1] == '/' then Trim(path[..|path| - 1]) else path
  }

  /** The id of one entry of `paths`. */
  function EntryId(entry: Json): Option<string> {
    if !entry.Obj? then None
    else match Get(entry.members, "id")
      case Some(Str(id)) => Some(id)
      case _ => None
  }

  function Paths(top: Members): Members {
    match Get(top, "paths")
    case Some(Obj(paths)) => paths
    case _ => NoMembers
  }

  /** The id that `paths` gives for exactly the name `path`. */
  function PathId(top: Members, path: string): Option<string> {
    match Get(Paths(top), path)
    case None => None
    case Some(entry) => EntryId(entry)
  }

  /** The first entry with an id whose trimmed name is `trimmed`. */
  function FirstMatch(paths: Members, trimmed: string): Option<string> {
    if paths.NoMembers? then None
    else if Trim(paths.key) == trimmed && EntryId(paths.value).Some? then EntryId(paths.value)
    else FirstMatch(paths.rest, trimmed)
  }

  function IndexName(top: Members): Option<string> {
    match Get(top, "index")
    case Some(Obj(index)) =>
      (match Get(index, "path")
       case Some(Str(name)) => Some(name)
       case _ => None)
    case _ => None
  }

  function Top(tree: Json): Members {
    if tree.Obj? then tree.members else NoMembers
  }

  function Sanitized(request: Option<string>): string {
    if request.Some? then Trim(request.value) else ""
  }

  /** What a manifest means for a request. */
  function Lookup(tree: Json, request: Option<string>): Option<string> {
    var trimmed := Sanitized(request);
    if trimmed != "" then FirstMatch(Paths(Top(tree)), trimmed)
    else match IndexName(Top(tree))
      case Some(name) => PathId(Top(tree), name)
      case None => None
  }

  // ---------------------------------------------------------------- the state machine

  /** Names that every JavaScript object answers to without having been given them. */
  const INHERITED: set<string> := {
    "constructor", "hasOwnProperty", "isPrototypeOf", "propertyIsEnumerable", "toLocaleString", "toString", "valueOf",
    "__defineGetter__", "__defineSetter__", "__lookupGetter__", "__lookupSetter__", "__proto__"}

  /** What the promise resolves to: an id, or a member of the prototype of all objects. */
  datatype Answer = Id(id: string) | Builtin(name: string)

  datatype Reader = Reader(
    indexPath: Option<string>, paths: map<string, string>, hasValidManifestKey: bool, hasValidManifestVersion: bool,
    pathCount: nat, resolved: Option<Answer>)

  datatype Machine = Machine(keyPath: seq<string>, currentKey: Option<string>, reader: Reader)

  const READER_START := Reader(None, map[], false, false, 0, None)
  const START := Machine([], None, READER_START)

  /** Reading `paths[name]` of a plain object; assigning to `__proto__` leaves no property behind. */
  function Property(paths: map<string, string>, name: string): Option<Answer> {
    if name in paths then Some(Id(paths[name])) else if name in INHERITED then Some(Builtin(name)) else None
  }

  function Assign(paths: map<string, string>, name: string, id: string): map<string, string> {
    if name == "__proto__" then paths else paths[name := id]
  }

  /** A promise keeps the first value it is resolved with. */
  function Resolve(r: Reader, answer: Answer): Reader {
    if r.resolved.Some? then r else r.(resolved := Some(answer))
  }

  function EmitIndex(r: Reader, trimmed: string, answer: Answer): Reader {
    (if trimmed == "" then Resolve(r, answer) else r).(paths := map[])
  }

  function EmitPath(r: Reader, trimmed: string, path: string, id: string): Reader {
    if trimmed != "" && Trim(path) == trimmed then Resolve(r, Id(id)) else r
  }

  function OnIndexPath(r: Reader, trimmed: string, name: string): Reader {
    var r' := r.(indexPath := Some(name));
    match Property(r.paths, name)
    case Some(answer) => EmitIndex(r', trimmed, answer)
    case None => r'
  }

  function OnPathId(r: Reader, trimmed: string, path: string, id: string): Reader {
    var r' := EmitPath(r.(pathCount := r.pathCount + 1), trimmed, path, id);
    match r.indexPath
    case None => r'.(paths := Assign(r.paths, path, id))
    case Some(name) => if path == name then EmitIndex(r', trimmed, Id(id)) else r'
  }

  function OnString(m: Machine, trimmed: string, data: string): Reader {
    var path, key, r := m.keyPath, m.currentKey, m.reader;
    var isManifest := path == [] && key == Some("manifest") && data == "arweave/paths";
    var r0 := if isManifest then r.(hasValidManifestKey := true) else r;
    var isVersion := path == [] && key == Some("version") && data == "0.1.0";
    var r1 := if isVersion then r0.(hasValidManifestVersion := true) else r0;
    var isIndex := |path| == 1 && path[0] == "index" && key == Some("path");
    var r2 := if isIndex then OnIndexPath(r1, trimmed, data) else r1;
    if |path| == 2 && path[0] == "paths" && key == Some("id") then OnPathId(r2, trimmed, path[1], data) else r2
  }

  function Step(m: Machine, trimmed: string, token: Token): Machine {
    match token
    case KeyValue(key) => m.(currentKey := Some(key))
    case StartObject => if m.currentKey.Some? then m.(keyPath := m.keyPath + [m.currentKey.value]) else m
    case EndObject => if |m.keyPath| > 0 then m.(keyPath := m.keyPath[..|m.keyPath| - 1]) else m
    case StringValue(data) => m.(reader := OnString(m, trimmed, data))
    case _ => m
  }

  function Run(m: Machine, trimmed: string, tokens: seq<Token>): Machine
    decreases |tokens|
  {
    if tokens == [] then m else Run(Step(m, trimmed, tokens[0]), trimmed, tokens[1..])
  }

  /** The id the promise resolves to once the whole text is read, or nothing. */
  function Resolved(tokens: seq<Token>, request: Option<string>): Option<Answer> {
    Run(START, Sanitized(request), tokens).reader.resolved
  }

  // ---------------------------------------------------------------- from tokens to events

  /** The string leaves that the machine reacts to. */
  datatype Event = ManifestKey | Version | Index(name: string) | Path(path: string, id: string)

  function React(r: Reader, trimmed: string, e: Event): Reader {
    match e
    case ManifestKey => r.(hasValidManifestKey := true)
    case Version => r.(hasValidManifestVersion := true)
    case Index(name) => OnIndexPath(r, trimmed, name)
    case Path(path, id) => OnPathId(r, trimmed, path, id)
  }

  function ReactAll(r: Reader, trimmed: string, es: seq<Event>): Reader
    decreases |es|
  {
    if es == [] then r else ReactAll(React(r, trimmed, es[0]), trimmed, es[1..])
  }

  function LeafEvent(path: seq<string>, key: string, data: string): seq<Event> {
    if path == [] && key == "manifest" && data == "arweave/paths" then [ManifestKey]
    else if path == [] && key == "version" && data == "0.1.0" then [Version]
    else if path == ["index"] && key == "path" then [Index(data)]
    else if |path| == 2 && path[0] == "paths" && key == "id" then [Path(path[1], data)]
    else []
  }

  /**
   What the machine sees of a value, and the current key it is left with: the last one read, whatever object it was
   in.
   */
  datatype Seen = Seen(events: seq<Event>, key: Option<string>)

  function ValueSeen(path: seq<string>, key: Option<string>, v: Json): Seen
    decreases v, 1
  {
    match v
    case Str(s) => Seen(if key.Some? then LeafEvent(path, key.value, s) else [], key)
    case Scalar => Seen([], key)
    case Obj(ms) => MembersSeen(if key.Some? then path + [key.value] else path, key, ms)
    case Arr(items) => ItemsSeen(path, key, items)
  }

  function MembersSeen(path: seq<string>, key: Option<string>, ms: Members): Seen
    decreases ms, 0
  {
    if ms.NoMembers? then Seen([], key)
    else
      var first := ValueSeen(path, Some(ms.key), ms.value);
      var others := MembersSeen(path, first.key, ms.rest);
      Seen(first.events + others.events, others.key)
  }

  /** Brackets are no events, so an item is read as if it stood alone, under the key that the item before it left. */
  function ItemsSeen(path: seq<string>, key: Option<string>, items: Items): Seen
    decreases items, 0
  {
    if items.NoItems? then Seen([], key)
    else
      var first := ValueSeen(path, key, items.head);
      var others := ItemsSeen(path, first.key, items.tail);
      Seen(first.events + others.events, others.key)
  }

  lemma {:induction false} RunAppend(m: Machine, trimmed: string, a: seq<Token>, b: seq<Token>)
    ensures Run(m, trimmed, a + b) == Run(Run(m, trimmed, a), trimmed, b)
    decreases |a|
  {
    if a == [] {
      assert a + b == b;
    } else {
      assert (a + b)[1..] == a[1..] + b;
      RunAppend(Step(m, trimmed, a[0]), trimmed, a[1..], b);
    }
  }

  lemma {:induction false} ReactAppend(r: Reader, trimmed: string, a: seq<Event>, b: seq<Event>)
    ensures ReactAll(r, trimmed, a + b) == ReactAll(ReactAll(r, trimmed, a), trimmed, b)
    decreases |a|
  {
    if a == [] {
      assert a + b == b;
    } else {
      assert (a + b)[1..] == a[1..] + b;
      ReactAppend(React(r, trimmed, a[0]), trimmed, a[1..], b);
    }
  }

  lemma RunOne(m: Machine, trimmed: string, token: Token)
    ensures Run(m, trimmed, [token]) == Step(m, trimmed, token)
  {
    assert Run(Step(m, trimmed, token), trimmed, [token][1..]) == Step(m, trimmed, token);
  }

  lemma RunBracketed(m: Machine, trimmed: string, open: Token, inside: seq<Token>, close: Token)
    ensures Run(m, trimmed, [open] + inside + [close])
      == Step(Run(Step(m, trimmed, open), trimmed, inside), trimmed, close)
  {
    RunAppend(m, trimmed, [open] + inside, [close]);
    RunAppend(m, trimmed, [open], inside);
    RunOne(m, trimmed, open);
    RunOne(Run(Step(m, trimmed, open), trimmed, inside), trimmed, close);
  }

  /** The machine once it has seen something: the key path as before. */
  function AfterSeeing(m: Machine, trimmed: string, seen: Seen): Machine {
    Machine(m.keyPath, seen.key, ReactAll(m.reader, trimmed, seen.events))
  }

  lemma SeeTwo(m: Machine, trimmed: string, first: Seen, others: Seen)
    ensures AfterSeeing(AfterSeeing(m, trimmed, first), trimmed, others)
         == AfterSeeing(m, trimmed, Seen(first.events + others.events, others.key))
  {
    ReactAppend(m.reader, trimmed, first.events, others.events);
  }

  /** No key has been read only while the key path is empty. */
  predicate Keyed(m: Machine) {
    m.currentKey.None? ==> m.keyPath == []
  }

  /**
   Reading the tokens of any value makes the machine react to what is seen of the value, and restores the key path.
   */
  lemma {:induction false} ValueRun(m: Machine, trimmed: string, v: Json)
    requires Keyed(m)
    ensures Run(m, trimmed, Tokens(v)) == AfterSeeing(m, trimmed, ValueSeen(m.keyPath, m.currentKey, v))
    decreases v, 1
  {
    match v
    case Str(s) =>
      RunOne(m, trimmed, StringValue(s));
      LeafIsString(m, trimmed, s);
    case Scalar => RunOne(m, trimmed, OtherValue);
    case Obj(ms) =>
      RunBracketed(m, trimmed, StartObject, MemberTokens(ms), EndObject);
      MembersRun(Step(m, trimmed, StartObject), trimmed, ms);
    case Arr(items) =>
      RunBracketed(m, trimmed, StartArray, ItemTokens(items), EndArray);
      ItemsRun(m, trimmed, items);
  }

  lemma LeafIsString(m: Machine, trimmed: string, s: string)
    ensures OnString(m, trimmed, s)
         == ReactAll(m.reader, trimmed, if m.currentKey.Some? then LeafEvent(m.keyPath, m.currentKey.value, s) else [])
  {
    var es := if m.currentKey.Some? then LeafEvent(m.keyPath, m.currentKey.value, s) else [];
    if es != [] {
      assert es[1..] == [] && ReactAll(m.reader, trimmed, es) == React(m.reader, trimmed, es[0]);
    }
  }

  lemma {:induction false} MembersRun(m: Machine, trimmed: string, ms: Members)
    requires Keyed(m)
    ensures Run(m, trimmed, MemberTokens(ms)) == AfterSeeing(m, trimmed, MembersSeen(m.keyPath, m.currentKey, ms))
    decreases ms, 0
  {
    if ms.Cons? {
      var keyed := m.(currentKey := Some(ms.key));
      RunOne(m, trimmed, KeyValue(ms.key));
      RunAppend(m, trimmed, [KeyValue(ms.key)] + Tokens(ms.value), MemberTokens(ms.rest));
      RunAppend(m, trimmed, [KeyValue(ms.key)], Tokens(ms.value));
      var first := ValueSeen(m.keyPath, Some(ms.key), ms.value);
      ValueRun(keyed, trimmed, ms.value);
      KeyStays(m.keyPath, Some(ms.key), ms.value);
      MembersRun(AfterSeeing(keyed, trimmed, first), trimmed, ms.rest);
      SeeTwo(keyed, trimmed, first, MembersSeen(m.keyPath, first.key, ms.rest));
    }
  }

  lemma {:induction false} ItemsRun(m: Machine, trimmed: string, items: Items)
    requires Keyed(m)
    ensures Run(m, trimmed, ItemTokens(items)) == AfterSeeing(m, trimmed, ItemsSeen(m.keyPath, m.currentKey, items))
    decreases items, 0
  {
    if items.Item? {
      RunAppend(m, trimmed, Tokens(items.head), ItemTokens(items.tail));
      var first := ValueSeen(m.keyPath, m.currentKey, items.head);
      ValueRun(m, trimmed, items.head);
      KeyStays(m.keyPath, m.currentKey, items.head);
      ItemsRun(AfterSeeing(m, trimmed, first), trimmed, items.tail);
      SeeTwo(m, trimmed, first, ItemsSeen(m.keyPath, first.key, items.tail));
    }
  }

  /** Once a key has been read there is always a current one. */
  lemma {:induction false} KeyStays(path: seq<string>, key: Option<string>, v: Json)
    ensures key.Some? ==> ValueSeen(path, key, v).key.Some?
    decreases v, 1
  {
    match v
    case Obj(ms) => MembersKeyStays(if key.Some? then path + [key.value] else path, key, ms);
    case Arr(items) => ItemsKeyStays(path, key, items);
    case _ =>
  }

  lemma {:induction false} MembersKeyStays(path: seq<string>, key: Option<string>, ms: Members)
    ensures key.Some? ==> MembersSeen(path, key, ms).key.Some?
    decreases ms, 0
  {
    if ms.Cons? {
      KeyStays(path, Some(ms.key), ms.value);
      MembersKeyStays(path, ValueSeen(path, Some(ms.key), ms.value).key, ms.rest);
    }
  }

  lemma {:induction false} ItemsKeyStays(path: seq<string>, key: Option<string>, items: Items)
    ensures key.Some? ==> ItemsSeen(path, key, items).key.Some?
    decreases items, 0
  {
    if items.Item? {
      KeyStays(path, key, items.head);
      ItemsKeyStays(path, ValueSeen(path, key, items.head).key, items.tail);
    }
  }

  function TreeSeen(tree: Json): Seen {
    ValueSeen([], None, tree)
  }

  /** Over the text of any JSON value the machine reacts to exactly what is seen of it, in order. */
  lemma TreeRun(tree: Json, trimmed: string)
    ensures Run(START, trimmed, Tokens(tree)).reader == ReactAll(READER_START, trimmed, TreeSeen(tree).events)
  {
    ValueRun(START, trimmed, tree);
  }

  // ---------------------------------------------------------------- arrays that are not seen

  /** The leaves of objects in objects, by their true key paths. */
  function ValueEvents(path: seq<string>, key: string, v: Json): seq<Event>
    decreases v, 1
  {
    match v
    case Str(s) => LeafEvent(path, key, s)
    case Obj(ms) => MemberEvents(path + [key], ms)
    case _ => []
  }

  function MemberEvents(path: seq<string>, ms: Members): seq<Event>
    decreases ms, 0
  {
    if ms.NoMembers? then [] else ValueEvents(path, ms.key, ms.value) + MemberEvents(path, ms.rest)
  }

  /** The machine reacts to nothing inside the arrays of a value. */
  predicate ArraysUnseen(path: seq<string>, key: string, v: Json)
    decreases v, 1
  {
    match v
    case Obj(ms) => MembersArraysUnseen(path + [key], ms)
    case Arr(items) => ItemsSeen(path, Some(key), items).events == []
    case _ => true
  }

  predicate MembersArraysUnseen(path: seq<string>, ms: Members)
    decreases ms, 0
  {
    ms.Cons? ==> ArraysUnseen(path, ms.key, ms.value) && MembersArraysUnseen(path, ms.rest)
  }

  predicate QuietArrays(tree: Json) {
    match tree
    case Obj(ms) => MembersArraysUnseen([], ms)
    case Arr(items) => ItemsSeen([], None, items).events == []
    case _ => true
  }

  lemma {:induction false} UnseenValue(path: seq<string>, key: string, v: Json)
    requires ArraysUnseen(path, key, v)
    ensures ValueSeen(path, Some(key), v).events == ValueEvents(path, key, v)
    decreases v, 1
  {
    if v.Obj? {
      UnseenMembers(path + [key], Some(key), v.members);
    }
  }

  lemma {:induction false} UnseenMembers(path: seq<string>, key: Option<string>, ms: Members)
    requires MembersArraysUnseen(path, ms)
    ensures MembersSeen(path, key, ms).events == MemberEvents(path, ms)
    decreases ms, 0
  {
    if ms.Cons? {
      UnseenValue(path, ms.key, ms.value);
      UnseenMembers(path, ValueSeen(path, Some(ms.key), ms.value).key, ms.rest);
    }
  }

  /** Where arrays are not seen, what is seen are the leaves of the tree. */
  lemma TreeLeaves(tree: Json)
    requires QuietArrays(tree)
    ensures TreeSeen(tree).events == MemberEvents([], Top(tree))
  {
    if tree.Obj? {
      UnseenMembers([], None, tree.members);
    }
  }

  predicate ObjectFree(v: Json) {
    match v
    case Obj(_) => false
    case Arr(items) => AllObjectFree(items)
    case _ => true
  }

  predicate AllObjectFree(items: Items) {
    items.Item? ==> ObjectFree(items.head) && AllObjectFree(items.tail)
  }

  /** Where the machine listens for strings. */
  predicate Heard(path: seq<string>, key: string) {
    || (path == [] && (key == "manifest" || key == "version"))
    || (path == ["index"] && key == "path")
    || (|path| == 2 && path[0] == "paths" && key == "id")
  }

  lemma {:induction false} FlatValueUnseen(path: seq<string>, key: string, v: Json)
    requires ObjectFree(v) && !Heard(path, key)
    ensures ValueSeen(path, Some(key), v) == Seen([], Some(key))
    decreases v, 1
  {
    if v.Arr? {
      FlatArrayUnseen(path, key, v.items);
    }
  }

  /** An array without objects, outside the few watched keys, is not seen. */
  lemma {:induction false} FlatArrayUnseen(path: seq<string>, key: string, items: Items)
    requires AllObjectFree(items) && !Heard(path, key)
    ensures ItemsSeen(path, Some(key), items) == Seen([], Some(key))
    ensures ArraysUnseen(path, key, Arr(items))
    decreases items, 0
  {
    if items.Item? {
      FlatValueUnseen(path, key, items.head);
      FlatArrayUnseen(path, key, items.tail);
    }
  }

  // ---------------------------------------------------------------- from events to the tree

  predicate Watched(path: seq<string>) {
    path == [] || path == ["index"] || path == ["paths"] || (|path| == 2 && path[0] == "paths")
  }

  /** Nothing below an unwatched key path is seen. */
  lemma {:induction false} UnwatchedIsSilent(path: seq<string>, ms: Members)
    requires !Watched(path) && forall key :: !Watched(path + [key])
    ensures MemberEvents(path, ms) == []
    decreases ms
  {
    if ms.Cons? {
      UnwatchedIsSilent(path, ms.rest);
      if ms.value.Obj? {
        UnwatchedIsSilent(path + [ms.key], ms.value.members);
      }
    }
  }

  lemma {:induction false} EntryEvents(path: string, entry: Members)
    requires MembersDistinct(entry)
    ensures MemberEvents(["paths", path], entry) ==
      match Get(entry, "id")
      case Some(Str(id)) => [Path(path, id)]
      case _ => []
  {
    if entry.Cons? {
      EntryEvents(path, entry.rest);
      if entry.value.Obj? {
        UnwatchedIsSilent(["paths", path] + [entry.key], entry.value.members);
      }
    }
  }

  lemma {:induction false} IndexEvents(index: Members)
    requires MembersDistinct(index)
    ensures MemberEvents(["index"], index) ==
      match Get(index, "path")
      case Some(Str(name)) => [Index(name)]
      case _ => []
  {
    if index.Cons? {
      IndexEvents(index.rest);
      if index.value.Obj? {
        UnwatchedIsSilent(["index"] + [index.key], index.value.members);
      }
    }
  }

  /** The entries of `paths` that have an id. */
  function Entries(paths: Members): seq<Event> {
    if paths.NoMembers? then []
    else (match EntryId(paths.value) case Some(id) => [Path(paths.key, id)] case None => []) + Entries(paths.rest)
  }

  lemma {:induction false} PathsEvents(paths: Members)
    requires MembersDistinct(paths)
    ensures MemberEvents(["paths"], paths) == Entries(paths)
  {
    if paths.Cons? {
      PathsEvents(paths.rest);
      if paths.value.Obj? {
        assert ["paths"] + [paths.key] == ["paths", paths.key];
        EntryEvents(paths.key, paths.value.members);
      }
    }
  }

  /** What one top-level member contributes. */
  function TopEvents(key: string, v: Json): seq<Event> {
    match v
    case Str(s) =>
      if key == "manifest" && s == "arweave/paths" then [ManifestKey]
      else if key == "version" && s == "0.1.0" then [Version] else []
    case Obj(ms) =>
      if key == "paths" then Entries(ms)
      else if key == "index" then (match Get(ms, "path") case Some(Str(name)) => [Index(name)] case _ => [])
      else []
    case _ => []
  }

  lemma TopMemberEvents(key: string, v: Json)
    requires DistinctKeys(v)
    ensures ValueEvents([], key, v) == TopEvents(key, v)
  {
    if v.Obj? {
      assert [] + [key] == [key];
      if key == "paths" {
        PathsEvents(v.members);
      } else if key == "index" {
        IndexEvents(v.members);
      } else {
        UnwatchedIsSilent([key], v.members);
      }
    }
  }

  // ---------------------------------------------------------------- searching the events

  function FirstPath(es: seq<Event>, trimmed: string): Option<string>
    decreases |es|
  {
    if es == [] then None
    else if es[0].Path? && Trim(es[0].path) == trimmed then Some(es[0].id)
    else FirstPath(es[1..], trimmed)
  }

  function FindId(es: seq<Event>, name: string): Option<string>
    decreases |es|
  {
    if es == [] then None
    else if es[0].Path? && es[0].path == name then Some(es[0].id)
    else FindId(es[1..], name)
  }

  predicate NoIndex(es: seq<Event>) {
    forall i :: 0 <= i < |es| ==> !es[i].Index?
  }

  predicate PathsUnique(es: seq<Event>) {
    forall i, j :: 0 <= i < j < |es| && es[i].Path? && es[j].Path? ==> es[i].path != es[j].path
  }

  lemma {:induction false} SearchAppend(a: seq<Event>, b: seq<Event>, name: string)
    ensures FirstPath(a + b, name) == OrElse(FirstPath(a, name), FirstPath(b, name))
    ensures FindId(a + b, name) == OrElse(FindId(a, name), FindId(b, name))
    decreases |a|
  {
    if a == [] {
      assert a + b == b;
    } else {
      assert (a + b)[1..] == a[1..] + b;
      SearchAppend(a[1..], b, name);
    }
  }

  lemma {:induction false} SearchEntries(paths: Members, name: string)
    requires MembersDistinct(paths)
    ensures FirstPath(Entries(paths), name) == FirstMatch(paths, name)
    ensures FindId(Entries(paths), name) == match Get(paths, name) case None => None case Some(entry) => EntryId(entry)
    ensures NoIndex(Entries(paths))
  {
    if paths.Cons? {
      SearchEntries(paths.rest, name);
      match EntryId(paths.value) {
        case None =>
          assert Entries(paths) == Entries(paths.rest);
        case Some(id) =>
          assert ([Path(paths.key, id)] + Entries(paths.rest))[1..] == Entries(paths.rest);
      }
    }
  }

  /** The events of the top level, searched, give what the tree's `paths` gives. */
  lemma {:induction false} SearchTop(top: Members, name: string)
    requires MembersDistinct(top)
    ensures FirstPath(MemberEvents([], top), name) == FirstMatch(Paths(top), name)
    ensures FindId(MemberEvents([], top), name) == PathId(top, name)
  {
    if top.Cons? {
      TopMemberEvents(top.key, top.value);
      SearchTop(top.rest, name);
      SearchAppend(TopEvents(top.key, top.value), MemberEvents([], top.rest), name);
      if top.key == "paths" && top.value.Obj? {
        SearchEntries(top.value.members, name);
      } else {
        SilentForSearch(top.key, top.value, name);
      }
    }
  }

  lemma SilentForSearch(key: string, v: Json, name: string)
    requires !(key == "paths" && v.Obj?)
    ensures FirstPath(TopEvents(key, v), name) == None && FindId(TopEvents(key, v), name) == None
  {
    var es := TopEvents(key, v);
    if es != [] {
      assert es[1..] == [];
    }
  }

  // ---------------------------------------------------------------- what the machine resolves to

  /** For a non-empty request the first matching path wins. */
  lemma {:induction false} ResolvesFirstPath(r: Reader, trimmed: string, es: seq<Event>)
    requires trimmed != ""
    ensures ReactAll(r, trimmed, es).resolved ==
      if r.resolved.Some? then r.resolved
      else match FirstPath(es, trimmed) case Some(id) => Some(Id(id)) case None => None
    decreases |es|
  {
    if es != [] {
      ResolvesFirstPath(React(r, trimmed, es[0]), trimmed, es[1..]);
    }
  }

  /** Before the index is known, the ids seen are kept under their names. */
  lemma {:induction false} RemembersIds(r: Reader, es: seq<Event>)
    requires NoIndex(es) && PathsUnique(es) && r.indexPath.None? && r.resolved.None?
    requires forall i :: 0 <= i < |es| && es[i].Path? ==> es[i].path !in r.paths
    requires "__proto__" !in r.paths
    ensures var r' := ReactAll(r, "", es);
      && r'.indexPath.None? && r'.resolved.None? && "__proto__" !in r'.paths
      && forall name :: name != "__proto__" ==>
           (if name in r'.paths then Some(r'.paths[name]) else None)
             == OrElse(if name in r.paths then Some(r.paths[name]) else None, FindId(es, name))
    decreases |es|
  {
    if es != [] {
      var r1 := React(r, "", es[0]);
      assert r1.resolved.None? && r1.indexPath.None?;
      forall i | 0 <= i < |es[1..]| && es[1..][i].Path? ensures es[1..][i].path !in r1.paths {
        assert es[1..][i] == es[i + 1];
      }
      RemembersIds(r1, es[1..]);
    }
  }

  /** Once the index is known, its id is emitted when its path comes by. */
  lemma {:induction false} WaitsForIndex(r: Reader, name: string, es: seq<Event>)
    requires NoIndex(es) && r.indexPath == Some(name)
    ensures ReactAll(r, "", es).resolved ==
      OrElse(r.resolved, match FindId(es, name) case Some(id) => Some(Id(id)) case None => None)
    decreases |es|
  {
    if es != [] {
      WaitsForIndex(React(r, "", es[0]), name, es[1..]);
    }
  }

  /** What an empty request is resolved to, when the index names `name` after the events `a` and before `b`. */
  function IndexAnswer(a: seq<Event>, name: string, b: seq<Event>): Option<Answer> {
    if name != "__proto__" && FindId(a, name).Some? then Some(Id(FindId(a, name).value))
    else if name in INHERITED then Some(Builtin(name))
    else match FindId(b, name) case Some(id) => Some(Id(id)) case None => None
  }

  lemma ResolvesIndex(a: seq<Event>, name: string, b: seq<Event>)
    requires NoIndex(a) && NoIndex(b) && PathsUnique(a)
    ensures ReactAll(READER_START, "", a + [Index(name)] + b).resolved == IndexAnswer(a, name, b)
  {
    ReactAppend(READER_START, "", a + [Index(name)], b);
    ReactAppend(READER_START, "", a, [Index(name)]);
    RemembersIds(READER_START, a);
    var r := ReactAll(READER_START, "", a);
    assert [Index(name)][1..] == [];
    assert ReactAll(r, "", [Index(name)]) == React(r, "", Index(name));
    WaitsForIndex(React(r, "", Index(name)), name, b);
  }

  // ---------------------------------------------------------------- the theorem

  /** The members before `key`. */
  function Before(ms: Members, key: string): Members {
    if ms.NoMembers? || ms.key == key then NoMembers else Cons(ms.key, ms.value, Before(ms.rest, key))
  }

  function Behind(ms: Members, key: string): Members {
    if ms.NoMembers? then NoMembers else if ms.key == key then ms.rest else Behind(ms.rest, key)
  }

  lemma {:induction false} SplitKeys(ms: Members, key: string)
    requires MembersDistinct(ms) && Get(ms, key).Some?
    ensures MembersDistinct(Before(ms, key)) && MembersDistinct(Behind(ms, key)) && DistinctKeys(Get(ms, key).value)
    ensures Get(Before(ms, key), key).None? && Get(Behind(ms, key), key).None?
    ensures forall k :: Get(ms, k).None? ==> Get(Before(ms, key), k).None?
  {
    if ms.key != key {
      SplitKeys(ms.rest, key);
      assert forall k :: Get(ms, k).None? ==> Get(ms.rest, k).None?;
    }
  }

  lemma {:induction false} SplitEvents(ms: Members, key: string)
    requires Get(ms, key).Some?
    ensures MemberEvents([], ms)
      == MemberEvents([], Before(ms, key)) + ValueEvents([], key, Get(ms, key).value)
        + MemberEvents([], Behind(ms, key))
  {
    if ms.key != key {
      SplitEvents(ms.rest, key);
    } else {
      assert MemberEvents([], NoMembers) == [];
    }
  }

  /** The members before and behind a key, and the events they contribute. */
  lemma SplitAt(ms: Members, key: string)
    requires MembersDistinct(ms) && Get(ms, key).Some?
    ensures MembersDistinct(Before(ms, key)) && MembersDistinct(Behind(ms, key)) && DistinctKeys(Get(ms, key).value)
    ensures Get(Before(ms, key), key).None? && Get(Behind(ms, key), key).None?
    ensures MemberEvents([], ms)
      == MemberEvents([], Before(ms, key)) + ValueEvents([], key, Get(ms, key).value)
        + MemberEvents([], Behind(ms, key))
  {
    SplitKeys(ms, key);
    SplitEvents(ms, key);
  }

  lemma {:induction false} EntriesUnique(paths: Members)
    requires MembersDistinct(paths)
    ensures PathsUnique(Entries(paths))
    ensures forall i :: 0 <= i < |Entries(paths)| ==>
      Entries(paths)[i].Path? && Get(paths, Entries(paths)[i].path).Some?
  {
    if paths.Cons? {
      EntriesUnique(paths.rest);
    }
  }

  lemma {:induction false} TopUnique(top: Members)
    requires MembersDistinct(top)
    ensures PathsUnique(MemberEvents([], top))
    ensures Get(top, "paths").None? ==> forall i :: 0 <= i < |MemberEvents([], top)| ==> !MemberEvents([], top)[i].Path?
    ensures IndexName(top).None? ==> NoIndex(MemberEvents([], top))
  {
    if top.Cons? {
      TopMemberEvents(top.key, top.value);
      TopUnique(top.rest);
      if top.key == "paths" && top.value.Obj? {
        EntriesUnique(top.value.members);
        SearchEntries(top.value.members, "");
      }
    }
  }

  /**
   The one case in which the machine departs from the tree: an empty request whose index names a builtin property,
   unless that name's entry was read before the index (and the name is not `__proto__`, which cannot be kept).
   */
  predicate Shadowed(tree: Json, request: Option<string>) {
    var name := IndexName(Top(tree));
    && Sanitized(request) == "" && name.Some? && name.value in INHERITED
    && (name.value == "__proto__" || PathId(Before(Top(tree), "index"), name.value).None?)
  }

  lemma EmptyRequest(tree: Json, request: Option<string>)
    requires QuietArrays(tree) && DistinctKeys(tree) && Sanitized(request) == "" && IndexName(Top(tree)).Some?
    ensures var top, name := Top(tree), IndexName(Top(tree)).value;
      Resolved(Tokens(tree), request)
        == IndexAnswer(MemberEvents([], Before(top, "index")), name, MemberEvents([], Behind(top, "index")))
    ensures var top, name := Top(tree), IndexName(Top(tree)).value;
      PathId(top, name)
        == OrElse(PathId(Before(top, "index"), name), FindId(MemberEvents([], Behind(top, "index")), name))
  {
    TreeRun(tree, "");
    TreeLeaves(tree);
    var top, name := Top(tree), IndexName(Top(tree)).value;
    var before, behind := Before(top, "index"), Behind(top, "index");
    SplitAt(top, "index");
    TopMemberEvents("index", Get(top, "index").value);
    assert ValueEvents([], "index", Get(top, "index").value) == [Index(name)];
    TopUnique(before);
    TopUnique(behind);
    var a, b := MemberEvents([], before), MemberEvents([], behind);
    ResolvesIndex(a, name, b);
    SearchTop(top, name);
    SearchTop(before, name);
    SearchAppend(a + [Index(name)], b, name);
    SearchAppend(a, [Index(name)], name);
    assert [Index(name)][1..] == [];
  }

  /**
   Streaming agrees with the tree for every manifest with distinct keys whose arrays are not seen, exactly when it is
   not shadowed.
   */
  lemma StreamingIsLookup(tree: Json, request: Option<string>)
    requires QuietArrays(tree) && DistinctKeys(tree)
    ensures Resolved(Tokens(tree), request)
      == (match Lookup(tree, request) case Some(id) => Some(Id(id)) case None => None)
      <==> !Shadowed(tree, request)
    ensures Shadowed(tree, request) ==> Resolved(Tokens(tree), request) == Some(Builtin(IndexName(Top(tree)).value))
  {
    var trimmed := Sanitized(request);
    var top := Top(tree);
    TreeRun(tree, trimmed);
    TreeLeaves(tree);
    if trimmed != "" {
      ResolvesFirstPath(READER_START, trimmed, MemberEvents([], top));
      SearchTop(top, trimmed);
    } else if IndexName(top).None? {
      TopUnique(top);
      RemembersIds(READER_START, MemberEvents([], top));
    } else {
      EmptyRequest(tree, request);
      SplitAt(top, "index");
      SearchTop(Before(top, "index"), IndexName(top).value);
    }
  }

  // ---------------------------------------------------------------- arrays

  lemma RunStep(m: Machine, trimmed: string, tokens: seq<Token>, i: nat)
    requires i < |tokens|
    ensures Run(m, trimmed, tokens[i..]) == Run(Step(m, trimmed, tokens[i]), trimmed, tokens[i + 1..])
  {
    assert tokens[i..][1..] == tokens[i + 1..];
  }

  function UnderPaths(v: Json): Json {
    Obj(Cons("paths", v, NoMembers))
  }

  lemma SeenUnderPaths(v: Json)
    ensures TreeSeen(UnderPaths(v)).events == ValueSeen([], Some("paths"), v).events
  {
    var first := ValueSeen([], Some("paths"), v);
    assert MembersSeen([], first.key, NoMembers) == Seen([], first.key);
    assert MembersSeen([], None, Cons("paths", v, NoMembers)).events == first.events + [];
  }

  /**
   Brackets are not seen: a one-element array of paths resolves as if its brackets were absent, though the tree has no
   path there. So arrays that the machine reacts to must be excluded.
   */
  lemma ArraysAreNotSeen(v: Json, request: Option<string>)
    ensures Lookup(UnderPaths(Arr(Item(v, NoItems))), request) == None
    ensures Resolved(Tokens(UnderPaths(Arr(Item(v, NoItems)))), request) == Resolved(Tokens(UnderPaths(v)), request)
  {
    var bracketed, first := Arr(Item(v, NoItems)), ValueSeen([], Some("paths"), v);
    SeenUnderPaths(v);
    SeenUnderPaths(bracketed);
    assert ItemsSeen([], first.key, NoItems) == Seen([], first.key);
    assert ValueSeen([], Some("paths"), bracketed).events == first.events + [] == first.events;
    TreeRun(UnderPaths(v), Sanitized(request));
    TreeRun(UnderPaths(bracketed), Sanitized(request));
    NoPathsNoMatch(bracketed, request);
  }

  lemma NoPathsNoMatch(v: Json, request: Option<string>)
    requires !v.Obj?
    ensures Lookup(UnderPaths(v), request) == None
  {
    assert Get(Top(UnderPaths(v)), "index") == Get(NoMembers, "index");
    assert Paths(Top(UnderPaths(v))) == NoMembers;
  }

  // ---------------------------------------------------------------- what the end of the stream reports

  function CountIds(paths: Members): nat {
    if paths.NoMembers? then 0 else (if EntryId(paths.value).Some? then 1 else 0) + CountIds(paths.rest)
  }

  function CountPaths(es: seq<Event>): nat
    decreases |es|
  {
    if es == [] then 0 else (if es[0].Path? then 1 else 0) + CountPaths(es[1..])
  }

  predicate IsValid(r: Reader) {
    r.hasValidManifestKey && r.hasValidManifestVersion && r.pathCount > 0
  }

  lemma ReportsOne(r: Reader, trimmed: string, e: Event)
    ensures var r' := React(r, trimmed, e);
      && r'.hasValidManifestKey == (r.hasValidManifestKey || e.ManifestKey?)
      && r'.hasValidManifestVersion == (r.hasValidManifestVersion || e.Version?)
      && r'.pathCount == r.pathCount + if e.Path? then 1 else 0
  {
  }

  lemma {:induction false} ReportsEvents(r: Reader, trimmed: string, es: seq<Event>)
    ensures var r' := ReactAll(r, trimmed, es);
      && r'.hasValidManifestKey == (r.hasValidManifestKey || ManifestKey in es)
      && r'.hasValidManifestVersion == (r.hasValidManifestVersion || Version in es)
      && r'.pathCount == r.pathCount + CountPaths(es)
    decreases |es|
  {
    if es != [] {
      assert es == [es[0]] + es[1..];
      ReportsOne(r, trimmed, es[0]);
      ReportsEvents(React(r, trimmed, es[0]), trimmed, es[1..]);
    }
  }

  /** The name that the last index event gives. */
  function LastIndex(es: seq<Event>): Option<string>
    decreases |es|
  {
    if es == [] then None else OrElse(LastIndex(es[1..]), if es[0].Index? then Some(es[0].name) else None)
  }

  lemma {:induction false} ReportsIndex(r: Reader, trimmed: string, es: seq<Event>)
    ensures ReactAll(r, trimmed, es).indexPath == OrElse(LastIndex(es), r.indexPath)
    decreases |es|
  {
    if es != [] {
      ReportsIndex(React(r, trimmed, es[0]), trimmed, es[1..]);
    }
  }

  lemma {:induction false} LastIndexAppend(a: seq<Event>, b: seq<Event>)
    ensures LastIndex(a + b) == OrElse(LastIndex(b), LastIndex(a))
    decreases |a|
  {
    if a == [] {
      assert a + b == b;
    } else {
      assert (a + b)[1..] == a[1..] + b;
      LastIndexAppend(a[1..], b);
    }
  }

  lemma {:induction false} NoLastIndex(es: seq<Event>)
    requires NoIndex(es)
    ensures LastIndex(es) == None
    decreases |es|
  {
    if es != [] {
      NoLastIndex(es[1..]);
    }
  }

  lemma {:induction false} IndexOfTop(top: Members)
    requires MembersDistinct(top)
    ensures LastIndex(MemberEvents([], top)) == IndexName(top)
  {
    if top.Cons? {
      var first := TopEvents(top.key, top.value);
      TopMemberEvents(top.key, top.value);
      IndexOfTop(top.rest);
      LastIndexAppend(first, MemberEvents([], top.rest));
      if top.key == "paths" && top.value.Obj? {
        SearchEntries(top.value.members, "");
        NoLastIndex(first);
      } else if first != [] {
        assert first[1..] == [];
      }
    }
  }

  lemma {:induction false} CountAppend(a: seq<Event>, b: seq<Event>)
    ensures CountPaths(a + b) == CountPaths(a) + CountPaths(b)
    decreases |a|
  {
    if a == [] {
      assert a + b == b;
    } else {
      assert (a + b)[1..] == a[1..] + b;
      CountAppend(a[1..], b);
    }
  }

  lemma {:induction false} CountEntries(paths: Members)
    ensures CountPaths(Entries(paths)) == CountIds(paths)
    ensures ManifestKey !in Entries(paths) && Version !in Entries(paths)
  {
    if paths.Cons? {
      CountEntries(paths.rest);
      match EntryId(paths.value) {
        case None =>
          assert Entries(paths) == Entries(paths.rest);
        case Some(id) =>
          assert ([Path(paths.key, id)] + Entries(paths.rest))[1..] == Entries(paths.rest);
      }
    }
  }

  lemma {:induction false} CountTop(top: Members)
    requires MembersDistinct(top)
    ensures CountPaths(MemberEvents([], top)) == CountIds(Paths(top))
    ensures ManifestKey in MemberEvents([], top) <==> Get(top, "manifest") == Some(Str("arweave/paths"))
    ensures Version in MemberEvents([], top) <==> Get(top, "version") == Some(Str("0.1.0"))
  {
    if top.Cons? {
      TopMemberEvents(top.key, top.value);
      CountTop(top.rest);
      CountAppend(TopEvents(top.key, top.value), MemberEvents([], top.rest));
      if top.key == "paths" && top.value.Obj? {
        CountEntries(top.value.members);
      } else if TopEvents(top.key, top.value) != [] {
        assert TopEvents(top.key, top.value)[1..] == [];
      }
    }
  }

  /**
   The end of the stream reports the number of paths, the index, and validity exactly for a version 0.1.0 path
   manifest with paths.
   */
  lemma EndReportsTheTree(tree: Json, trimmed: string)
    requires QuietArrays(tree) && DistinctKeys(tree)
    ensures var r := Run(START, trimmed, Tokens(tree)).reader;
      && r.pathCount == CountIds(Paths(Top(tree)))
      && r.indexPath == IndexName(Top(tree))
      && (IsValid(r) <==>
            && Get(Top(tree), "manifest") == Some(Str("arweave/paths"))
            && Get(Top(tree), "version") == Some(Str("0.1.0"))
            && CountIds(Paths(Top(tree))) > 0)
  {
    TreeRun(tree, trimmed);
    TreeLeaves(tree);
    ReportsEvents(READER_START, trimmed, MemberEvents([], Top(tree)));
    ReportsIndex(READER_START, trimmed, MemberEvents([], Top(tree)));
    CountTop(Top(tree));
    IndexOfTop(Top(tree));
  }

  // ---------------------------------------------------------------- the object

  method TrimTrailingSlashes(path: string) returns (r: string)
    ensures r == Trim(path)
  {
    r := path;
    while r != "" && r[|r| - 1] == '/'
      invariant Trim(r) == Trim(path)
      decreases |r|
    {
      r := r[..|r| - 1];
    }
  }

  class ManifestResolver {
    const sanitizedPath: string
    var currentKey: Option<string>
    var keyPath: seq<string>
    var indexPath: Option<string>
    var paths: map<string, string>
    var hasValidManifestKey: bool
    var hasValidManifestVersion: bool
    var pathCount: nat
    var resolved: Option<Answer>

    ghost function State(): Machine
      reads this
    {
      Machine(keyPath, currentKey,
        Reader(indexPath, paths, hasValidManifestKey, hasValidManifestVersion, pathCount, resolved))
    }

    constructor (request: Option<string>)
      ensures State() == START && sanitizedPath == Sanitized(request)
    {
      var trimmed := "";
      if request.Some? {
        trimmed := TrimTrailingSlashes(request.value);
      }
      sanitizedPath := trimmed;
      currentKey, keyPath, indexPath, paths := None, [], None, map[];
      hasValidManifestKey, hasValidManifestVersion, pathCount, resolved := false, false, 0, None;
    }

    method ResolveWith(answer: Answer)
      modifies this`resolved
      ensures resolved == if old(resolved).Some? then old(resolved) else Some(answer)
    {
      if resolved.None? {
        resolved := Some(answer);
      }
    }

    method OnIndex(answer: Answer)
      modifies this`resolved
      ensures resolved == if sanitizedPath == "" && old(resolved).None? then Some(answer) else old(resolved)
    {
      if sanitizedPath == "" {
        ResolveWith(answer);
      }
    }

    method OnPath(path: string, id: string)
      modifies this`resolved
      ensures resolved == if sanitizedPath != "" && Trim(path) == sanitizedPath && old(resolved).None?
        then Some(Id(id)) else old(resolved)
    {
      var trimmedDataPath := TrimTrailingSlashes(path);
      if sanitizedPath != "" && trimmedDataPath == sanitizedPath {
        ResolveWith(Id(id));
      }
    }

    method OnStringValue(data: string)
      modifies this
      ensures State() == Step(old(State()), sanitizedPath, StringValue(data))
    {
      if |keyPath| == 0 && currentKey == Some("manifest") && data == "arweave/paths" {
        hasValidManifestKey := true;
      }
      if |keyPath| == 0 && currentKey == Some("version") && data == "0.1.0" {
        hasValidManifestVersion := true;
      }
      if |keyPath| == 1 && keyPath[0] == "index" && currentKey == Some("path") {
        indexPath := Some(data);
        var known := Property(paths, data);
        if known.Some? {
          OnIndex(known.value);
          paths := map[];
        }
      }
      if |keyPath| == 2 && keyPath[0] == "paths" && currentKey == Some("id") {
        pathCount := pathCount + 1;
        var p := keyPath[1];
        OnPath(p, data);
        if indexPath.None? {
          paths := Assign(paths, p, data);
        } else if p == indexPath.value {
          OnIndex(Id(data));
          paths := map[];
        }
      }
    }

    method OnToken(token: Token)
      modifies this
      ensures State() == Step(old(State()), sanitizedPath, token)
    {
      match token {
        case KeyValue(key) =>
          currentKey := Some(key);
        case StartObject =>
          if currentKey.Some? {
            keyPath := keyPath + [currentKey.value];
          }
        case EndObject =>
          if |keyPath| > 0 {
            keyPath := keyPath[..|keyPath| - 1];
          }
        case StringValue(data) =>
          OnStringValue(data);
        case _ =>
      }
    }

    method Read(tokens: seq<Token>)
      requires State() == START
      modifies this
      ensures State() == Run(START, sanitizedPath, tokens)
    {
      for i := 0 to |tokens|
        invariant Run(START, sanitizedPath, tokens) == Run(State(), sanitizedPath, tokens[i..])
      {
        RunStep(State(), sanitizedPath, tokens, i);
        OnToken(tokens[i]);
      }
    }
  }

  /** How the promise ends. */
  datatype Settled = Fulfilled(answer: Option<Answer>) | Rejected

  /**
   Reads the tokens up to the end of the text, or up to where the stream or the parser fails. An answer found by then
   stands; `StreamingIsLookup` says which one that is for a whole text.
   */
  method ResolveManifestStreamPath(tokens: seq<Token>, fails: bool, request: Option<string>) returns (r: Settled)
    ensures r == match Resolved(tokens, request)
      case Some(answer) => Fulfilled(Some(answer))
      case None => if fails then Rejected else Fulfilled(None)
  {
    var resolver := new ManifestResolver(request);
    resolver.Read(tokens);
    if resolver.resolved.None? && fails {
      return Rejected;
    }
    return Fulfilled(resolver.resolved);
  }
}
