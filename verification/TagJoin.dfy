/**
 The filters of a transaction query: a select statement built up clause by clause, with one self-join of the tag table
 per requested tag.
 */
module TagJoin {
  import opened ByteStrings
  import opened Options
  import Sequences

  type Id = Bytes
  type Hash = string

  datatype Source = StableTxs | StableItems | NewTxs | NewItems

  /** A row of the transactions or data items; pending ones have no height and no index. */
  datatype Row = Row(id: Id, target: Option<string>, owner: string, parent: Id, height: Option<nat>, index: Option<nat>)

  /** A row of the tag table: the table holds the hashes of `name` and `value`, and the id of what is tagged. */
  datatype TagRow = TagRow(name: string, value: string, id: Id, height: Option<nat>, index: Option<nat>)

  datatype Tag = Tag(name: string, values: seq<string>)

  /** `bundledIn` is `None` unless the argument is a list; negative heights mean no bound. */
  datatype Filters = Filters(
    ids: seq<Id>, recipients: seq<string>, owners: seq<string>, tags: seq<Tag>,
    minHeight: int, maxHeight: int, bundledIn: Option<seq<Id>>)

  // ---------------------------------------------------------------- the statement

  /** The table a column is taken from: the main one or the tag table under its n-th alias. */
  datatype Alias = Main | Tags(n: nat)

  datatype Condition =
    | IdIn(ids: seq<Id>)
    | TargetIn(targets: seq<string>)
    | OwnerIn(owners: seq<string>)
    | ParentIn(parents: seq<Id>)
    | SameIndex(left: Alias, right: Alias)
    | SameHeight(left: Alias, right: Alias)
    | SameId(left: Alias, right: Alias)
    | NameHashIs(n: nat, hash: Hash)
    | ValueHashIn(n: nat, hashes: seq<Hash>)
    | HeightAtLeast(alias: Alias, bound: int)
    | HeightAtMost(alias: Alias, bound: int)

  datatype Statement = Statement(joins: nat, conditions: seq<Condition>)

  /** SQL equality: null equals nothing. */
  predicate SqlEqual<T(==)>(a: Option<T>, b: Option<T>) {
    a.Some? && b.Some? && a.value == b.value
  }

  function HeightOf(r: Row, a: seq<TagRow>, t: Alias): Option<nat> {
    if t.Main? then r.height else if t.n < |a| then a[t.n].height else None
  }

  function IndexOf(r: Row, a: seq<TagRow>, t: Alias): Option<nat> {
    if t.Main? then r.index else if t.n < |a| then a[t.n].index else None
  }

  function IdOf(r: Row, a: seq<TagRow>, t: Alias): Option<Id> {
    if t.Main? then Some(r.id) else if t.n < |a| then Some(a[t.n].id) else None
  }

  ghost predicate Holds(sha1: string -> Hash, c: Condition, r: Row, a: seq<TagRow>) {
    match c
    case IdIn(ids) => r.id in ids
    case TargetIn(targets) => r.target.Some? && r.target.value in targets
    case OwnerIn(owners) => r.owner in owners
    case ParentIn(parents) => r.parent in parents
    case SameIndex(left, right) => SqlEqual(IndexOf(r, a, left), IndexOf(r, a, right))
    case SameHeight(left, right) => SqlEqual(HeightOf(r, a, left), HeightOf(r, a, right))
    case SameId(left, right) => SqlEqual(IdOf(r, a, left), IdOf(r, a, right))
    case NameHashIs(n, hash) => n < |a| && sha1(a[n].name) == hash
    case ValueHashIn(n, hashes) => n < |a| && sha1(a[n].value) in hashes
    case HeightAtLeast(t, bound) => HeightOf(r, a, t).Some? && HeightOf(r, a, t).value >= bound
    case HeightAtMost(t, bound) => HeightOf(r, a, t).Some? && HeightOf(r, a, t).value <= bound
  }

  ghost predicate AllHold(sha1: string -> Hash, conditions: seq<Condition>, r: Row, a: seq<TagRow>) {
    forall c :: c in conditions ==> Holds(sha1, c, r, a)
  }

  /** Some choice of tag rows, one per join. */
  ghost predicate IsChoice(table: set<TagRow>, joins: nat, a: seq<TagRow>) {
    |a| == joins && forall k :: 0 <= k < |a| ==> a[k] in table
  }

  /** `SELECT DISTINCT`: a row is selected when some choice of tag rows satisfies every condition. */
  ghost predicate Selects(sha1: string -> Hash, s: Statement, table: set<TagRow>, r: Row) {
    exists a :: IsChoice(table, s.joins, a) && AllHold(sha1, s.conditions, r, a)
  }

  // ---------------------------------------------------------------- building it

  predicate LowSelectivity(tag: Tag) {
    tag.name == "App-Name" || tag.name == "Content-Type"
  }

  function WithPriority(tags: seq<Tag>, low: bool): seq<Tag> {
    if tags == [] then []
    else (if LowSelectivity(tags[0]) == low then [tags[0]] else []) + WithPriority(tags[1..], low)
  }

  /** The stable sort that puts tags with large result sets last. */
  function ByJoinPriority(tags: seq<Tag>): seq<Tag> {
    WithPriority(tags, false) + WithPriority(tags, true)
  }

  predicate Stable(source: Source) {
    source == StableTxs || source == StableItems
  }

  function Hashes(sha1: string -> Hash, values: seq<string>): (r: seq<Hash>)
    ensures |r| == |values| && forall i :: 0 <= i < |r| ==> r[i] == sha1(values[i])
  {
    if values == [] then [] else [sha1(values[0])] + Hashes(sha1, values[1..])
  }

  /** How the `k`-th tag alias is tied to the others. */
  function JoinConditions(source: Source, k: nat): seq<Condition> {
    if !Stable(source) then [SameId(Main, Tags(k))]
    else if k > 0 then [SameId(Tags(k), Tags(k - 1))]
    else
      [SameIndex(Main, Tags(0)), SameHeight(Main, Tags(0))]
      + if source == StableItems then [SameId(Main, Tags(0))] else []
  }

  function NameConditions(sha1: string -> Hash, tag: Tag, k: nat): seq<Condition> {
    [NameHashIs(k, sha1(tag.name)), ValueHashIn(k, Hashes(sha1, tag.values))]
  }

  function TagConditions(sha1: string -> Hash, source: Source, tags: seq<Tag>, n: nat): seq<Condition>
    requires n <= |tags|
  {
    if n == 0 then []
    else
      TagConditions(sha1, source, tags, n - 1) + JoinConditions(source, n - 1)
      + NameConditions(sha1, tags[n - 1], n - 1)
  }

  /** The table whose height column the height filters use. */
  function HeightAlias(source: Source, tags: seq<Tag>): Alias {
    if Stable(source) && tags != [] then Tags(0) else Main
  }

  /** The stable maximum; a missing one compares as 0. New sources have no maximum. */
  datatype MaxDbHeight = Infinity | StableMax(height: Option<nat>)

  predicate BelowMax(maxHeight: int, maxDb: MaxDbHeight) {
    match maxDb
    case Infinity => true
    case StableMax(h) => maxHeight < if h.Some? then h.value else 0
  }

  function KeyConditions(f: Filters): seq<Condition> {
    (if |f.ids| > 0 then [IdIn(f.ids)] else [])
    + (if |f.recipients| > 0 then [TargetIn(f.recipients)] else [])
    + (if |f.owners| > 0 then [OwnerIn(f.owners)] else [])
  }

  function RangeConditions(source: Source, f: Filters, heightAlias: Alias, maxDb: MaxDbHeight): seq<Condition> {
    (if f.minHeight > 0 then [HeightAtLeast(heightAlias, f.minHeight)] else [])
    + (if f.maxHeight >= 0 && BelowMax(f.maxHeight, maxDb) then [HeightAtMost(heightAlias, f.maxHeight)] else [])
    + (if f.bundledIn.Some? && (source == StableItems || source == NewItems) then [ParentIn(f.bundledIn.value)] else [])
  }

  function Plan(sha1: string -> Hash, source: Source, f: Filters, maxDb: MaxDbHeight): Statement {
    var tags := ByJoinPriority(f.tags);
    Statement(
      |tags|,
      KeyConditions(f) + TagConditions(sha1, source, tags, |tags|)
        + RangeConditions(source, f, HeightAlias(source, tags), maxDb))
  }

  class SelectStatement {
    var joins: nat
    var conditions: seq<Condition>

    ghost function Built(): Statement
      reads this
    {
      Statement(joins, conditions)
    }

    constructor ()
      ensures Built() == Statement(0, [])
    {
      joins, conditions := 0, [];
    }

    method Where(c: Condition)
      modifies this`conditions
      ensures conditions == old(conditions) + [c]
    {
      conditions := conditions + [c];
    }

    method Join()
      modifies this`joins
      ensures joins == old(joins) + 1
    {
      joins := joins + 1;
    }
  }

  method AddTagFilter(sha1: string -> Hash, query: SelectStatement, source: Source, tag: Tag, index: nat)
    modifies query
    ensures query.joins == old(query.joins) + 1
    ensures query.conditions == old(query.conditions) + JoinConditions(source, index) + NameConditions(sha1, tag, index)
  {
    query.Join();
    if source == StableTxs || source == StableItems {
      if index == 0 {
        query.Where(SameIndex(Main, Tags(0)));
        query.Where(SameHeight(Main, Tags(0)));
        if source == StableItems {
          query.Where(SameId(Main, Tags(0)));
        }
      } else {
        query.Where(SameId(Tags(index), Tags(index - 1)));
      }
    } else {
      query.Where(SameId(Main, Tags(index)));
    }
    query.Where(NameHashIs(index, sha1(tag.name)));
    query.Where(ValueHashIn(index, Hashes(sha1, tag.values)));
  }

  method AddKeyFilters(query: SelectStatement, f: Filters)
    modifies query`conditions
    ensures query.conditions == old(query.conditions) + KeyConditions(f)
  {
    if |f.ids| > 0 {
      query.Where(IdIn(f.ids));
    }
    if |f.recipients| > 0 {
      query.Where(TargetIn(f.recipients));
    }
    if |f.owners| > 0 {
      query.Where(OwnerIn(f.owners));
    }
  }

  method AddRangeFilters(query: SelectStatement, source: Source, f: Filters, heightAlias: Alias, maxDb: MaxDbHeight)
    modifies query`conditions
    ensures query.conditions == old(query.conditions) + RangeConditions(source, f, heightAlias, maxDb)
  {
    if f.minHeight > 0 {
      query.Where(HeightAtLeast(heightAlias, f.minHeight));
    }
    if f.maxHeight >= 0 && BelowMax(f.maxHeight, maxDb) {
      query.Where(HeightAtMost(heightAlias, f.maxHeight));
    }
    if f.bundledIn.Some? && (source == StableItems || source == NewItems) {
      query.Where(ParentIn(f.bundledIn.value));
    }
  }

  method AddTagFilters(
      sha1: string -> Hash, query: SelectStatement, source: Source, tags: seq<Tag>) returns (heightAlias: Alias)
    requires query.joins == 0
    modifies query
    ensures query.joins == |tags| && heightAlias == HeightAlias(source, tags)
    ensures query.conditions == old(query.conditions) + TagConditions(sha1, source, tags, |tags|)
  {
    heightAlias := Main;
    for index := 0 to |tags|
      invariant query.joins == index
        && query.conditions == old(query.conditions) + TagConditions(sha1, source, tags, index)
      invariant heightAlias == if Stable(source) && index > 0 then Tags(0) else Main
    {
      if (source == StableTxs || source == StableItems) && index == 0 {
        heightAlias := Tags(0);
      }
      ghost var names := NameConditions(sha1, tags[index], index);
      ghost var before, joins := TagConditions(sha1, source, tags, index), JoinConditions(source, index);
      Sequences.Regroup(old(query.conditions), before, joins);
      Sequences.Regroup(old(query.conditions), before + joins, names);
      AddTagFilter(sha1, query, source, tags[index], index);
    }
  }

  method AddGqlTransactionFilters(
      sha1: string -> Hash, query: SelectStatement, source: Source, f: Filters, maxDb: MaxDbHeight)
    requires query.Built() == Statement(0, [])
    modifies query
    ensures query.Built() == Plan(sha1, source, f, maxDb)
  {
    AddKeyFilters(query, f);
    assert query.conditions == KeyConditions(f);
    var tags := ByJoinPriority(f.tags);
    var heightAlias := AddTagFilters(sha1, query, source, tags);
    assert query.conditions == KeyConditions(f) + TagConditions(sha1, source, tags, |tags|);
    AddRangeFilters(query, source, f, heightAlias, maxDb);
  }

  // ---------------------------------------------------------------- what is asked for

  /** `r` carries some tag with that name and an allowed value. */
  ghost predicate HasTag(table: set<TagRow>, r: Row, tag: Tag) {
    exists t :: t in table && IsWitness(t, r, tag)
  }

  predicate IsWitness(t: TagRow, r: Row, tag: Tag) {
    t.id == r.id && t.name == tag.name && t.value in tag.values
  }

  ghost predicate KeysMatch(f: Filters, r: Row) {
    && (f.ids != [] ==> r.id in f.ids)
    && (f.recipients != [] ==> r.target.Some? && r.target.value in f.recipients)
    && (f.owners != [] ==> r.owner in f.owners)
  }

  ghost predicate RangesMatch(source: Source, f: Filters, r: Row) {
    && (f.minHeight > 0 ==> r.height.Some? && r.height.value >= f.minHeight)
    && (f.maxHeight >= 0 ==> r.height.Some? && r.height.value <= f.maxHeight)
    && (f.bundledIn.Some? && (source == StableItems || source == NewItems) ==> r.parent in f.bundledIn.value)
  }

  /** The meaning of the filters, tags in any order. */
  ghost predicate Matches(source: Source, f: Filters, table: set<TagRow>, r: Row) {
    KeysMatch(f, r) && (forall tag :: tag in f.tags ==> HasTag(table, r, tag)) && RangesMatch(source, f, r)
  }

  /** Ids are primary keys; tag rows copy the position of what they tag; a position names one stable transaction. */
  ghost predicate Consistent(source: Source, rows: set<Row>, table: set<TagRow>, maxDb: MaxDbHeight) {
    && (forall r, q :: r in rows && q in rows && r.id == q.id ==> r == q)
    && (Stable(source) ==>
          && maxDb.StableMax?
          && (forall r :: r in rows ==>
            r.height.Some? && r.index.Some? && maxDb.height.Some? && r.height.value <= maxDb.height.value)
          && (forall t :: t in table ==> exists r :: r in rows && Tagged(r, t)))
    && (!Stable(source) ==> maxDb.Infinity?)
    && (source == StableTxs ==>
      forall r, q :: r in rows && q in rows && r.height == q.height && r.index == q.index ==> r == q)
  }

  predicate Tagged(r: Row, t: TagRow) {
    t.id == r.id && t.height == r.height && t.index == r.index
  }

  ghost predicate Injective(sha1: string -> Hash) {
    forall x, y :: sha1(x) == sha1(y) ==> x == y
  }

  // ---------------------------------------------------------------- the theorem

  lemma {:induction false} PriorityKeeps(tags: seq<Tag>, low: bool)
    ensures forall tag :: tag in WithPriority(tags, low) <==> tag in tags && LowSelectivity(tag) == low
    ensures multiset(WithPriority(tags, false)) + multiset(WithPriority(tags, true)) == multiset(tags)
  {
    if tags != [] {
      PriorityKeeps(tags[1..], low);
      assert tags == [tags[0]] + tags[1..];
    }
  }

  /** The sort only reorders the tags, and puts those with one of the two common names last. */
  lemma SortingPermutes(tags: seq<Tag>)
    ensures multiset(ByJoinPriority(tags)) == multiset(tags)
    ensures forall tag :: tag in ByJoinPriority(tags) <==> tag in tags
    ensures var sorted := ByJoinPriority(tags);
      forall i, j :: 0 <= i < j < |sorted| && sorted[i].name in {"App-Name", "Content-Type"} ==>
        sorted[j].name in {"App-Name", "Content-Type"}
  {
    PriorityKeeps(tags, false);
    PriorityKeeps(tags, true);
    var a, b := WithPriority(tags, false), WithPriority(tags, true);
    forall i | 0 <= i < |a| + |b| ensures LowSelectivity((a + b)[i]) <==> i >= |a| {
      if i < |a| {
        assert a[i] in a && (a + b)[i] == a[i];
      } else {
        assert b[i - |a|] in b && (a + b)[i] == b[i - |a|];
      }
    }
  }

  /** The `k`-th tag alias is a tag row with the right name and an allowed value. */
  predicate Fits(a: seq<TagRow>, tags: seq<Tag>, k: nat) {
    k < |a| && k < |tags| && a[k].name == tags[k].name && a[k].value in tags[k].values
  }

  lemma ValueIsHashed(sha1: string -> Hash, values: seq<string>, value: string)
    requires Injective(sha1)
    ensures sha1(value) in Hashes(sha1, values) <==> value in values
  {
    var hashes := Hashes(sha1, values);
    if sha1(value) in hashes {
      var i :| 0 <= i < |hashes| && hashes[i] == sha1(value);
      assert values[i] == value;
    }
    if value in values {
      var i :| 0 <= i < |values| && values[i] == value;
      assert hashes[i] == sha1(value);
    }
  }

  lemma NamesFit(sha1: string -> Hash, a: seq<TagRow>, tags: seq<Tag>, k: nat, r: Row)
    requires Injective(sha1) && k < |a| && k < |tags|
    ensures AllHold(sha1, NameConditions(sha1, tags[k], k), r, a) <==> Fits(a, tags, k)
  {
    var names := NameConditions(sha1, tags[k], k);
    assert names[0] in names && names[1] in names;
    ValueIsHashed(sha1, tags[k].values, a[k].value);
  }

  /** The `k`-th alias fits its tag and is tied as its join says. */
  ghost predicate FitsAndTies(sha1: string -> Hash, source: Source, tags: seq<Tag>, r: Row, a: seq<TagRow>, k: nat) {
    Fits(a, tags, k) && AllHold(sha1, JoinConditions(source, k), r, a)
  }

  ghost predicate AllFit(sha1: string -> Hash, source: Source, tags: seq<Tag>, r: Row, a: seq<TagRow>, n: nat) {
    forall k: nat :: k < n ==> FitsAndTies(sha1, source, tags, r, a, k)
  }

  /** The tag conditions hold of a choice exactly when each alias fits its tag and is tied as its join says. */
  lemma {:induction false} TagConditionsMean(
      sha1: string -> Hash, source: Source, tags: seq<Tag>, n: nat, r: Row, a: seq<TagRow>)
    requires Injective(sha1) && n <= |tags| && |a| == |tags|
    ensures AllHold(sha1, TagConditions(sha1, source, tags, n), r, a) <==> AllFit(sha1, source, tags, r, a, n)
  {
    if n > 0 {
      TagConditionsMean(sha1, source, tags, n - 1, r, a);
      TagConditionsStep(sha1, source, tags, n - 1, r, a);
      OneMoreFits(sha1, source, tags, r, a, n - 1);
    }
  }

  lemma OneMoreFits(sha1: string -> Hash, source: Source, tags: seq<Tag>, r: Row, a: seq<TagRow>, n: nat)
    ensures AllFit(sha1, source, tags, r, a, n + 1)
      <==> (AllFit(sha1, source, tags, r, a, n) && FitsAndTies(sha1, source, tags, r, a, n))
  {
  }

  lemma TagConditionsStep(sha1: string -> Hash, source: Source, tags: seq<Tag>, n: nat, r: Row, a: seq<TagRow>)
    requires Injective(sha1) && n < |tags| && |a| == |tags|
    ensures AllHold(sha1, TagConditions(sha1, source, tags, n + 1), r, a)
      <==> (AllHold(sha1, TagConditions(sha1, source, tags, n), r, a) && FitsAndTies(sha1, source, tags, r, a, n))
  {
    var before, joins, names := TagConditions(sha1, source, tags, n), JoinConditions(source, n),
      NameConditions(sha1, tags[n], n);
    AllHoldAppend(sha1, before + joins, names, r, a);
    AllHoldAppend(sha1, before, joins, r, a);
    NamesFit(sha1, a, tags, n, r);
  }

  lemma AllHoldAppend(sha1: string -> Hash, c: seq<Condition>, d: seq<Condition>, r: Row, a: seq<TagRow>)
    ensures AllHold(sha1, c + d, r, a) <==> AllHold(sha1, c, r, a) && AllHold(sha1, d, r, a)
  {
    assert forall x :: x in c + d <==> x in c || x in d;
  }

  /** In consistent tables a tag row at the position of a stable transaction is that transaction's. */
  lemma PositionNamesTransaction(rows: set<Row>, table: set<TagRow>, maxDb: MaxDbHeight, r: Row, t: TagRow)
    requires Consistent(StableTxs, rows, table, maxDb) && r in rows && t in table
    ensures t.height == r.height && t.index == r.index <==> t.id == r.id
  {
    var q :| q in rows && Tagged(q, t);
  }

  lemma CopiesPosition(source: Source, rows: set<Row>, table: set<TagRow>, maxDb: MaxDbHeight, r: Row, t: TagRow)
    requires Stable(source) && Consistent(source, rows, table, maxDb) && r in rows && t in table && t.id == r.id
    ensures Tagged(r, t)
  {
    var q :| q in rows && Tagged(q, t);
  }

  /** The first alias is tied to the row exactly when it is one of the row's own tags. */
  lemma FirstJoin(
      sha1: string -> Hash, source: Source, rows: set<Row>, table: set<TagRow>, maxDb: MaxDbHeight, r: Row,
      a: seq<TagRow>)
    requires Consistent(source, rows, table, maxDb) && r in rows && |a| > 0 && a[0] in table
    ensures AllHold(sha1, JoinConditions(source, 0), r, a) <==> a[0].id == r.id
  {
    var c := JoinConditions(source, 0);
    if Stable(source) {
      assert c[0] in c && c[1] in c;
      var positions := Holds(sha1, c[0], r, a) && Holds(sha1, c[1], r, a);
      assert AllHold(sha1, c, r, a)
        <==> positions && (source == StableItems ==> Holds(sha1, SameId(Main, Tags(0)), r, a)) by {
        if source == StableItems {
          assert c[2] == SameId(Main, Tags(0)) && c[2] in c;
        }
      }
      if source == StableTxs {
        PositionNamesTransaction(rows, table, maxDb, r, a[0]);
      } else if a[0].id == r.id {
        CopiesPosition(source, rows, table, maxDb, r, a[0]);
      }
    } else {
      assert c[0] in c;
    }
  }

  /** What consistency of the tables gives about one choice: the first join picks the row's own tags, at its height. */
  ghost predicate Ties(sha1: string -> Hash, source: Source, r: Row, a: seq<TagRow>) {
    |a| > 0 ==>
      && (AllHold(sha1, JoinConditions(source, 0), r, a) <==> a[0].id == r.id)
      && (Stable(source) && a[0].id == r.id ==> a[0].height == r.height)
  }

  /** What it gives about the height bound. */
  predicate WithinMax(r: Row, maxDb: MaxDbHeight) {
    maxDb.StableMax? ==> r.height.Some? && maxDb.height.Some? && r.height.value <= maxDb.height.value
  }

  lemma ConsistentTies(
      sha1: string -> Hash, source: Source, rows: set<Row>, table: set<TagRow>, maxDb: MaxDbHeight, r: Row,
      a: seq<TagRow>)
    requires Consistent(source, rows, table, maxDb) && r in rows && forall k :: 0 <= k < |a| ==> a[k] in table
    ensures Ties(sha1, source, r, a) && WithinMax(r, maxDb)
  {
    if |a| > 0 {
      FirstJoin(sha1, source, rows, table, maxDb, r, a);
      if Stable(source) && a[0].id == r.id {
        CopiesPosition(source, rows, table, maxDb, r, a[0]);
      }
    }
  }

  /** All joins together tie every alias to the row's own tags. */
  lemma {:induction false} JoinsTie(sha1: string -> Hash, source: Source, r: Row, a: seq<TagRow>, n: nat)
    requires Ties(sha1, source, r, a) && n <= |a|
    ensures (forall k: nat :: k < n ==> AllHold(sha1, JoinConditions(source, k), r, a))
      <==> (forall k: nat :: k < n ==> a[k].id == r.id)
  {
    if n > 1 {
      JoinsTie(sha1, source, r, a, n - 1);
      var c := JoinConditions(source, n - 1);
      assert c[0] in c;
      assert AllHold(sha1, c, r, a) <==> Holds(sha1, c[0], r, a);
    }
  }

  /** A choice satisfies the tag conditions exactly when each alias is a witness for its tag. */
  lemma ChoiceMeans(sha1: string -> Hash, source: Source, tags: seq<Tag>, r: Row, a: seq<TagRow>)
    requires Injective(sha1) && Ties(sha1, source, r, a) && |a| == |tags|
    ensures AllHold(sha1, TagConditions(sha1, source, tags, |tags|), r, a)
      <==> forall k: nat :: k < |tags| ==> IsWitness(a[k], r, tags[k])
  {
    TagConditionsMean(sha1, source, tags, |tags|, r, a);
    JoinsTie(sha1, source, r, a, |tags|);
    assert forall k: nat :: k < |tags| ==>
      (FitsAndTies(sha1, source, tags, r, a, k) <==>
       (Fits(a, tags, k) && AllHold(sha1, JoinConditions(source, k), r, a)));
    assert forall k: nat :: k < |tags| ==> (IsWitness(a[k], r, tags[k]) <==> Fits(a, tags, k) && a[k].id == r.id);
  }

  /** Rows that carry every tag have a choice of witnesses. */
  lemma {:induction false} ChooseWitnesses(table: set<TagRow>, tags: seq<Tag>, r: Row, n: nat) returns (a: seq<TagRow>)
    requires n <= |tags| && forall k :: 0 <= k < |tags| ==> HasTag(table, r, tags[k])
    ensures IsChoice(table, n, a) && forall k: nat :: k < n ==> IsWitness(a[k], r, tags[k])
  {
    if n == 0 {
      a := [];
    } else {
      a := ChooseWitnesses(table, tags, r, n - 1);
      assert HasTag(table, r, tags[n - 1]);
      var t :| t in table && IsWitness(t, r, tags[n - 1]);
      a := a + [t];
    }
  }

  lemma One(sha1: string -> Hash, c: Condition, present: bool, r: Row, a: seq<TagRow>)
    ensures AllHold(sha1, if present then [c] else [], r, a) <==> (present ==> Holds(sha1, c, r, a))
  {
    assert c in [c];
  }

  lemma KeyConditionsMean(sha1: string -> Hash, f: Filters, r: Row, a: seq<TagRow>)
    ensures AllHold(sha1, KeyConditions(f), r, a) <==> KeysMatch(f, r)
  {
    var ids := if |f.ids| > 0 then [IdIn(f.ids)] else [];
    var recipients := if |f.recipients| > 0 then [TargetIn(f.recipients)] else [];
    var owners := if |f.owners| > 0 then [OwnerIn(f.owners)] else [];
    AllHoldAppend(sha1, ids + recipients, owners, r, a);
    AllHoldAppend(sha1, ids, recipients, r, a);
    One(sha1, IdIn(f.ids), |f.ids| > 0, r, a);
    One(sha1, TargetIn(f.recipients), |f.recipients| > 0, r, a);
    One(sha1, OwnerIn(f.owners), |f.owners| > 0, r, a);
  }

  /** Read at the row's own height, the range conditions mean the bounds, whether or not the upper one was left out. */
  lemma RangeConditionsMean(
      sha1: string -> Hash, source: Source, f: Filters, h: Alias, maxDb: MaxDbHeight, r: Row, a: seq<TagRow>)
    requires HeightOf(r, a, h) == r.height && WithinMax(r, maxDb)
    ensures AllHold(sha1, RangeConditions(source, f, h, maxDb), r, a) <==> RangesMatch(source, f, r)
  {
    var bounded := f.maxHeight >= 0 && BelowMax(f.maxHeight, maxDb);
    var bundled := f.bundledIn.Some? && (source == StableItems || source == NewItems);
    var atLeast := if f.minHeight > 0 then [HeightAtLeast(h, f.minHeight)] else [];
    var atMost := if bounded then [HeightAtMost(h, f.maxHeight)] else [];
    var parents := if bundled then [ParentIn(f.bundledIn.value)] else [];
    AllHoldAppend(sha1, atLeast + atMost, parents, r, a);
    AllHoldAppend(sha1, atLeast, atMost, r, a);
    One(sha1, HeightAtLeast(h, f.minHeight), f.minHeight > 0, r, a);
    One(sha1, HeightAtMost(h, f.maxHeight), bounded, r, a);
    if bundled {
      One(sha1, ParentIn(f.bundledIn.value), bundled, r, a);
    }
  }

  ghost predicate AllWitness(tags: seq<Tag>, r: Row, a: seq<TagRow>) {
    |a| == |tags| && forall k: nat :: k < |tags| ==> IsWitness(a[k], r, tags[k])
  }

  /** A choice satisfies the whole plan exactly when its aliases are witnesses and the other filters hold of the row. */
  lemma PlanMeans(sha1: string -> Hash, source: Source, f: Filters, maxDb: MaxDbHeight, r: Row, a: seq<TagRow>)
    requires Injective(sha1) && Ties(sha1, source, r, a) && WithinMax(r, maxDb) && |a| == |ByJoinPriority(f.tags)|
    ensures AllHold(sha1, Plan(sha1, source, f, maxDb).conditions, r, a)
      <==> AllWitness(ByJoinPriority(f.tags), r, a) && KeysMatch(f, r) && RangesMatch(source, f, r)
  {
    var tags := ByJoinPriority(f.tags);
    var h := HeightAlias(source, tags);
    var tagged := TagConditions(sha1, source, tags, |tags|);
    AllHoldAppend(sha1, KeyConditions(f) + tagged, RangeConditions(source, f, h, maxDb), r, a);
    AllHoldAppend(sha1, KeyConditions(f), tagged, r, a);
    KeyConditionsMean(sha1, f, r, a);
    ChoiceMeans(sha1, source, tags, r, a);
    if AllWitness(tags, r, a) {
      assert tags != [] ==> IsWitness(a[0], r, tags[0]);
      RangeConditionsMean(sha1, source, f, h, maxDb, r, a);
    }
  }

  lemma MatchingIsSelected(
      sha1: string -> Hash, source: Source, f: Filters, rows: set<Row>, table: set<TagRow>, maxDb: MaxDbHeight,
      r: Row)
    requires Injective(sha1) && Consistent(source, rows, table, maxDb) && r in rows && Matches(source, f, table, r)
    ensures Selects(sha1, Plan(sha1, source, f, maxDb), table, r)
  {
    var tags := ByJoinPriority(f.tags);
    SortingPermutes(f.tags);
    forall k | 0 <= k < |tags| ensures HasTag(table, r, tags[k]) {
      assert tags[k] in tags;
    }
    var a := ChooseWitnesses(table, tags, r, |tags|);
    ConsistentTies(sha1, source, rows, table, maxDb, r, a);
    PlanMeans(sha1, source, f, maxDb, r, a);
    assert IsChoice(table, Plan(sha1, source, f, maxDb).joins, a);
  }

  lemma SelectedMatches(
      sha1: string -> Hash, source: Source, f: Filters, rows: set<Row>, table: set<TagRow>, maxDb: MaxDbHeight,
      r: Row)
    requires Injective(sha1) && Consistent(source, rows, table, maxDb) && r in rows
    requires Selects(sha1, Plan(sha1, source, f, maxDb), table, r)
    ensures Matches(source, f, table, r)
  {
    var tags := ByJoinPriority(f.tags);
    var plan := Plan(sha1, source, f, maxDb);
    SortingPermutes(f.tags);
    var a :| IsChoice(table, plan.joins, a) && AllHold(sha1, plan.conditions, r, a);
    ConsistentTies(sha1, source, rows, table, maxDb, r, a);
    PlanMeans(sha1, source, f, maxDb, r, a);
    forall tag | tag in f.tags ensures HasTag(table, r, tag) {
      assert tag in tags;
      var k :| 0 <= k < |tags| && tags[k] == tag;
      assert IsWitness(a[k], r, tags[k]);
    }
  }

  /**
   The built statement selects exactly the rows that match: those where every requested tag, in whatever order they are
   given, has some tag row with that name and an allowed value, and the other filters hold. Leaving out the height bound
   at or above the stable maximum changes nothing.
   */
  lemma PlanSelectsMatches(
      sha1: string -> Hash, source: Source, f: Filters, rows: set<Row>, table: set<TagRow>, maxDb: MaxDbHeight,
      r: Row)
    requires Injective(sha1) && Consistent(source, rows, table, maxDb) && r in rows
    ensures Selects(sha1, Plan(sha1, source, f, maxDb), table, r) <==> Matches(source, f, table, r)
  {
    if Matches(source, f, table, r) {
      MatchingIsSelected(sha1, source, f, rows, table, maxDb, r);
    }
    if Selects(sha1, Plan(sha1, source, f, maxDb), table, r) {
      SelectedMatches(sha1, source, f, rows, table, maxDb, r);
    }
  }
}
