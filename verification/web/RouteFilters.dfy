/**
 Route filters in the address bar (web/src/lib/routeFilters.ts): reading them from a
 parameter list that anyone may have typed, and writing them back in one canonical form.
 */
module RouteFilters {
  import opened Wrappers

  /** The parameter names the route list knows, and all others. */
  datatype Key = Tag | Hold | HoldId | MinGrade | MaxGrade | Progress | MinStars | Circuit | Beta | Sort | Unrelated(name: string)

  datatype Param = Param(key: Key, value: string)

  datatype Filters = Filters(
    tags: seq<string>, holds: seq<string>, minGrade: Option<string>, maxGrade: Option<string>,
    progress: Option<string>, minStars: Option<int>, circuit: Option<string>, hasBeta: bool)

  /** String operations of the platform: trimming, upper-casing, the whole number a text stands for, and printing one. */
  datatype Text = Text(trim: string -> string, upper: string -> string, whole: string -> Option<int>, show: int -> string)

  ghost predicate Sound(t: Text) {
    && (forall s :: t.trim(t.trim(s)) == t.trim(s))
    && (forall g :: g in VGrades() ==> t.upper(t.trim(g)) == g)
    && (forall n :: 1 <= n <= 5 ==> t.whole(t.show(n)) == Some(n))
  }

  /** The V scale, easiest first. */
  function VGrades(): seq<string> {
    ["VB", "V0", "V1", "V2", "V3", "V4", "V5", "V6", "V7", "V8", "V9", "V10", "V11", "V12", "V13", "V14", "V15", "V16", "V17"]
  }

  function RouteTags(): seq<string> {
    ["pumpy", "crimpy", "pinchy", "slopey", "juggy", "powerful", "technical", "balancy", "dynamic", "static", "reachy", "compression"]
  }

  function ProgressValues(): set<string> { {"unsent", "not_tried", "projects", "sent"} }

  function SortValues(): set<string> { {NEWEST, "grade_asc", "grade_desc"} }

  const NEWEST := "newest"

  // ---------------------------------------------------------------- parameter lists

  /** All values of a name, in order. */
  function Values(list: seq<Param>, key: Key): seq<string> {
    if list == [] then []
    else (if list[0].key == key then [list[0].value] else []) + Values(list[1..], key)
  }

  function Without(list: seq<Param>, keys: set<Key>): seq<Param> {
    if list == [] then []
    else (if list[0].key in keys then [] else [list[0]]) + Without(list[1..], keys)
  }

  function Tagged(key: Key, values: seq<string>): seq<Param> {
    if values == [] then [] else [Param(key, values[0])] + Tagged(key, values[1..])
  }

  /** Setting a name overwrites its first occurrence and drops the rest, or appends. */
  function Put(list: seq<Param>, key: Key, value: string): seq<Param> {
    if list == [] then [Param(key, value)]
    else if list[0].key == key then [Param(key, value)] + Without(list[1..], {key})
    else [list[0]] + Put(list[1..], key, value)
  }

  lemma {:induction false} ValuesConcat(a: seq<Param>, b: seq<Param>, key: Key)
    ensures Values(a + b, key) == Values(a, key) + Values(b, key)
  {
    if a == [] {
      assert a + b == b;
    } else {
      assert (a + b)[1..] == a[1..] + b;
      ValuesConcat(a[1..], b, key);
    }
  }

  lemma {:induction false} WithoutConcat(a: seq<Param>, b: seq<Param>, keys: set<Key>)
    ensures Without(a + b, keys) == Without(a, keys) + Without(b, keys)
  {
    if a == [] {
      assert a + b == b;
    } else {
      assert (a + b)[1..] == a[1..] + b;
      WithoutConcat(a[1..], b, keys);
    }
  }

  lemma {:induction false} WithoutTwice(list: seq<Param>, some: set<Key>, more: set<Key>)
    ensures Without(Without(list, some), more) == Without(list, some + more)
  {
    if list != [] {
      WithoutTwice(list[1..], some, more);
      var head := if list[0].key in some then [] else [list[0]];
      WithoutConcat(head, Without(list[1..], some), more);
    }
  }

  lemma {:induction false} ValuesWithout(list: seq<Param>, keys: set<Key>, key: Key)
    ensures Values(Without(list, keys), key) == if key in keys then [] else Values(list, key)
  {
    if list != [] {
      ValuesWithout(list[1..], keys, key);
      ValuesConcat(if list[0].key in keys then [] else [list[0]], Without(list[1..], keys), key);
    }
  }

  lemma {:induction false} TaggedValues(key: Key, values: seq<string>, other: Key)
    ensures Values(Tagged(key, values), other) == if other == key then values else []
  {
    if values != [] {
      TaggedValues(key, values[1..], other);
      assert Tagged(key, values)[1..] == Tagged(key, values[1..]);
      assert values == [values[0]] + values[1..];
    }
  }

  lemma {:induction false} WithoutTagged(key: Key, values: seq<string>, keys: set<Key>)
    ensures Without(Tagged(key, values), keys) == if key in keys then [] else Tagged(key, values)
  {
    if values != [] {
      WithoutTagged(key, values[1..], keys);
      assert Tagged(key, values)[1..] == Tagged(key, values[1..]);
    }
  }

  lemma {:induction false} TaggedGrows(key: Key, values: seq<string>, value: string)
    ensures Tagged(key, values + [value]) == Tagged(key, values) + [Param(key, value)]
  {
    if values == [] {
      assert values + [value] == [value];
    } else {
      assert (values + [value])[1..] == values[1..] + [value];
      TaggedGrows(key, values[1..], value);
    }
  }

  lemma {:induction false} PutAbsent(list: seq<Param>, key: Key, value: string)
    ensures Put(Without(list, {key}), key, value) == Without(list, {key}) + Tagged(key, [value])
  {
    assert Tagged(key, [value]) == [Param(key, value)];
    if list != [] {
      PutAbsent(list[1..], key, value);
      var rest := Without(list[1..], {key});
      if list[0].key == key {
        assert Without(list, {key}) == rest;
      } else {
        assert Without(list, {key}) == [list[0]] + rest && Without(list, {key})[1..] == rest;
      }
    }
  }

  // ---------------------------------------------------------------- rewriting name by name

  datatype Group = Group(key: Key, values: seq<string>)

  ghost predicate DistinctKeys(groups: seq<Group>) {
    forall i, j :: 0 <= i < j < |groups| ==> groups[i].key != groups[j].key
  }

  function Keys(groups: seq<Group>): set<Key> {
    set g | g in groups :: g.key
  }

  function Replaced(list: seq<Param>, g: Group): seq<Param> {
    Without(list, {g.key}) + Tagged(g.key, g.values)
  }

  function Rewrite(list: seq<Param>, groups: seq<Group>): seq<Param> {
    if groups == [] then list else Replaced(Rewrite(list, groups[..|groups| - 1]), groups[|groups| - 1])
  }

  function Printed(groups: seq<Group>): seq<Param> {
    if groups == [] then [] else Printed(groups[..|groups| - 1]) + Tagged(groups[|groups| - 1].key, groups[|groups| - 1].values)
  }

  lemma {:induction false} WithoutNothing(list: seq<Param>)
    ensures Without(list, {}) == list
  {
    if list != [] { WithoutNothing(list[1..]); }
  }

  lemma NothingToWrite(list: seq<Param>, groups: seq<Group>)
    requires groups == []
    ensures Without(list, Keys(groups)) == list
  {
    WithoutNothing(list);
    assert Keys(groups) == {};
  }

  lemma {:induction false} WithoutPrinted(groups: seq<Group>, keys: set<Key>)
    ensures keys !! Keys(groups) ==> Without(Printed(groups), keys) == Printed(groups)
    ensures Keys(groups) <= keys ==> Without(Printed(groups), keys) == []
  {
    if groups != [] {
      var (front, last) := (groups[..|groups| - 1], groups[|groups| - 1]);
      assert last in groups && Keys(front) <= Keys(groups) && last.key in Keys(groups);
      WithoutPrinted(front, keys);
      WithoutConcat(Printed(front), Tagged(last.key, last.values), keys);
      WithoutTagged(last.key, last.values, keys);
    }
  }

  /** Rewriting leaves the other parameters in place and order, and puts the rewritten ones behind them, group by group. */
  lemma {:induction false} RewriteIsOthersThenPrinted(list: seq<Param>, groups: seq<Group>)
    requires DistinctKeys(groups)
    ensures Rewrite(list, groups) == Without(list, Keys(groups)) + Printed(groups)
  {
    hide Without, Tagged, Keys, DistinctKeys;
    if groups == [] {
      NothingToWrite(list, groups);
    } else {
      var (front, last) := (groups[..|groups| - 1], groups[|groups| - 1]);
      KeysGrow(groups);
      RewriteIsOthersThenPrinted(list, front);
      WithoutConcat(Without(list, Keys(front)), Printed(front), {last.key});
      WithoutTwice(list, Keys(front), {last.key});
      WithoutPrinted(front, {last.key});
    }
  }

  lemma KeysGrow(groups: seq<Group>)
    requires groups != [] && DistinctKeys(groups)
    ensures var (front, last) := (groups[..|groups| - 1], groups[|groups| - 1]);
      DistinctKeys(front) && Keys(groups) == Keys(front) + {last.key} && last.key !in Keys(front)
  {
    var (front, last) := (groups[..|groups| - 1], groups[|groups| - 1]);
    assert groups == front + [last];
    assert forall g :: g in groups <==> g in front || g == last;
    forall g | g in front ensures g.key != last.key {
      var i :| 0 <= i < |front| && front[i] == g;
      assert groups[i].key != groups[|groups| - 1].key;
    }
  }

  lemma RewriteTwice(list: seq<Param>, groups: seq<Group>)
    requires DistinctKeys(groups)
    ensures Rewrite(Rewrite(list, groups), groups) == Rewrite(list, groups)
  {
    RewriteIsOthersThenPrinted(list, groups);
    RewriteIsOthersThenPrinted(Rewrite(list, groups), groups);
    WithoutConcat(Without(list, Keys(groups)), Printed(groups), Keys(groups));
    WithoutTwice(list, Keys(groups), Keys(groups));
    WithoutPrinted(groups, Keys(groups));
    assert Keys(groups) + Keys(groups) == Keys(groups);
  }

  /** What is read under a name afterwards: the values of its group, or what was there before. */
  ghost function ValuesIn(groups: seq<Group>, key: Key, otherwise: seq<string>): seq<string> {
    if groups == [] then otherwise
    else if groups[|groups| - 1].key == key then groups[|groups| - 1].values
    else ValuesIn(groups[..|groups| - 1], key, otherwise)
  }

  lemma {:induction false} ValuesRewritten(list: seq<Param>, groups: seq<Group>, key: Key)
    ensures Values(Rewrite(list, groups), key) == ValuesIn(groups, key, Values(list, key))
  {
    if groups != [] {
      var (front, last) := (groups[..|groups| - 1], groups[|groups| - 1]);
      ValuesRewritten(list, front, key);
      ValuesConcat(Without(Rewrite(list, front), {last.key}), Tagged(last.key, last.values), key);
      ValuesWithout(Rewrite(list, front), {last.key}, key);
      TaggedValues(last.key, last.values, key);
    }
  }

  // ---------------------------------------------------------------- reading

  /** The members of `order` found among the values, in that order. */
  function Select(order: seq<string>, values: seq<string>): seq<string> {
    if order == [] then []
    else (if order[0] in values then [order[0]] else []) + Select(order[1..], values)
  }

  function ParseTags(values: seq<string>): seq<string> {
    Select(RouteTags(), values)
  }

  function Trimmed(t: Text, values: seq<string>): seq<string> {
    if values == [] then []
    else (if t.trim(values[0]) == "" then [] else [t.trim(values[0])]) + Trimmed(t, values[1..])
  }

  /** Duplicates are dropped after their first occurrence. */
  function Distinct(values: seq<string>): (r: seq<string>)
    ensures forall v :: v in r <==> v in values
    ensures forall i, j :: 0 <= i < j < |r| ==> r[i] != r[j]
  {
    if values == [] then []
    else
      var front := Distinct(values[..|values| - 1]);
      assert values == values[..|values| - 1] + [values[|values| - 1]];
      if values[|values| - 1] in front then front else front + [values[|values| - 1]]
  }

  function HoldIds(t: Text, values: seq<string>): seq<string> {
    Distinct(Trimmed(t, values))
  }

  function GradeBound(t: Text, values: seq<string>): (r: Option<string>)
    ensures r.Some? ==> r.value in VGrades()
  {
    if values == [] then None
    else if t.upper(t.trim(values[0])) in VGrades() then Some(t.upper(t.trim(values[0])))
    else GradeBound(t, values[1..])
  }

  function FirstIn(allowed: set<string>, values: seq<string>): (r: Option<string>)
    ensures r.Some? ==> r.value in allowed
  {
    if values == [] then None else if values[0] in allowed then Some(values[0]) else FirstIn(allowed, values[1..])
  }

  predicate IsStars(n: Option<int>) {
    n.Some? && 1 <= n.value <= 5
  }

  function FirstStars(t: Text, values: seq<string>): (r: Option<int>)
    ensures r.Some? ==> IsStars(r)
  {
    if values == [] then None else if IsStars(t.whole(values[0])) then t.whole(values[0]) else FirstStars(t, values[1..])
  }

  function FirstNonBlank(t: Text, values: seq<string>): (r: Option<string>)
    ensures r.Some? ==> r.value != "" && exists v :: r.value == t.trim(v)
  {
    if values == [] then None else if t.trim(values[0]) != "" then Some(t.trim(values[0])) else FirstNonBlank(t, values[1..])
  }

  function Rank(order: seq<string>, g: string): nat
    requires g in order
  {
    if order[0] == g then 0 else 1 + Rank(order[1..], g)
  }

  predicate Inverted(lo: Option<string>, hi: Option<string>)
    requires lo.Some? ==> lo.value in VGrades()
    requires hi.Some? ==> hi.value in VGrades()
  {
    lo.Some? && hi.Some? && Rank(VGrades(), lo.value) > Rank(VGrades(), hi.value)
  }

  /** An upper grade bound below the lower one is ignored. */
  function ParseFilters(t: Text, list: seq<Param>): Filters {
    var lo := GradeBound(t, Values(list, MinGrade));
    var hi := GradeBound(t, Values(list, MaxGrade));
    Filters(
      ParseTags(Values(list, Tag)),
      HoldIds(t, Values(list, Hold) + Values(list, HoldId)),
      lo,
      if Inverted(lo, hi) then None else hi,
      FirstIn(ProgressValues(), Values(list, Progress)),
      FirstStars(t, Values(list, MinStars)),
      FirstNonBlank(t, Values(list, Circuit)),
      "1" in Values(list, Beta))
  }

  function ParseSort(list: seq<Param>): (r: string)
    ensures r in SortValues()
  {
    var found := FirstIn(SortValues(), Values(list, Sort));
    if found.Some? then found.value else NEWEST
  }

  // ---------------------------------------------------------------- what is read from an address

  function ReadGrade(t: Text, s: string): Option<string> {
    if t.upper(t.trim(s)) in VGrades() then Some(t.upper(t.trim(s))) else None
  }

  function ReadText(t: Text, s: string): Option<string> {
    if t.trim(s) != "" then Some(t.trim(s)) else None
  }

  function ReadStars(t: Text, s: string): Option<int> {
    if IsStars(t.whole(s)) then t.whole(s) else None
  }

  /** The first parameter of that name that reads as anything, as it reads. */
  ghost predicate FirstRead<T>(list: seq<Param>, key: Key, read: string -> Option<T>, r: Option<T>) {
    if r.None? then forall p :: p in list && p.key == key ==> read(p.value).None?
    else exists i :: 0 <= i < |list| && ReadsFirst(list, key, read, r, i)
  }

  ghost predicate ReadsFirst<T>(list: seq<Param>, key: Key, read: string -> Option<T>, r: Option<T>, i: nat)
    requires i < |list|
  {
    list[i].key == key && read(list[i].value) == r && forall j :: 0 <= j < i && list[j].key == key ==> read(list[j].value).None?
  }

  /** `r` is what the first readable value reads as. */
  ghost predicate Finds<T>(read: string -> Option<T>, values: seq<string>, r: Option<T>)
    decreases |values|
  {
    if values == [] then r.None? else if read(values[0]).Some? then r == read(values[0]) else Finds(read, values[1..], r)
  }

  lemma FirstReadsFirst<T>(list: seq<Param>, key: Key, read: string -> Option<T>)
    requires list != [] && list[0].key == key
    ensures ReadsFirst(list, key, read, read(list[0].value), 0)
  {
  }

  lemma LaterReadsFirst<T>(list: seq<Param>, key: Key, read: string -> Option<T>, r: Option<T>, i: nat)
    requires i + 1 < |list| && ReadsFirst(list[1..], key, read, r, i)
    requires list[0].key == key ==> read(list[0].value).None?
    ensures ReadsFirst(list, key, read, r, i + 1)
  {
    assert forall j :: 1 <= j < |list| ==> list[j] == list[1..][j - 1];
  }

  lemma {:induction false} FindingReadsFirst<T>(list: seq<Param>, key: Key, read: string -> Option<T>, r: Option<T>)
    requires Finds(read, Values(list, key), r)
    ensures FirstRead(list, key, read, r)
  {
    if list != [] {
      hide ReadsFirst;
      var (p, rest) := (list[0], list[1..]);
      if p.key == key && read(p.value).Some? {
        assert Values(list, key)[0] == p.value;
        FirstReadsFirst(list, key, read);
      } else {
        assert Values(list, key) == if p.key == key then [p.value] + Values(rest, key) else Values(rest, key);
        if p.key == key { assert Values(list, key)[1..] == Values(rest, key); }
        FindingReadsFirst(rest, key, read, r);
        if r.Some? {
          var i :| 0 <= i < |rest| && ReadsFirst(rest, key, read, r, i);
          LaterReadsFirst(list, key, read, r, i);
        }
      }
    }
  }

  lemma {:induction false} FindersFind(t: Text, allowed: set<string>, values: seq<string>, grade: string -> Option<string>,
                                       text: string -> Option<string>, stars: string -> Option<int>, known: string -> Option<string>)
    requires forall s :: grade(s) == ReadGrade(t, s) && text(s) == ReadText(t, s) && stars(s) == ReadStars(t, s)
    requires forall s :: known(s) == if s in allowed then Some(s) else None
    ensures Finds(grade, values, GradeBound(t, values)) && Finds(text, values, FirstNonBlank(t, values))
    ensures Finds(stars, values, FirstStars(t, values)) && Finds(known, values, FirstIn(allowed, values))
  {
    if values != [] { FindersFind(t, allowed, values[1..], grade, text, stars, known); }
  }

  lemma {:induction false} TrimmedMembers(t: Text, values: seq<string>, h: string)
    ensures h in Trimmed(t, values) <==> h != "" && exists v :: v in values && t.trim(v) == h
  {
    if values != [] {
      TrimmedMembers(t, values[1..], h);
      assert forall v :: v in values <==> v == values[0] || v in values[1..];
    }
  }

  lemma {:induction false} ValueMembers(list: seq<Param>, key: Key, v: string)
    ensures v in Values(list, key) <==> Param(key, v) in list
  {
    if list != [] { ValueMembers(list[1..], key, v); }
  }

  /**
   What an address shows: every tag and hold in it, the first value of each other name that can be read, the upper
   grade bound only if it is not below the lower one, and a sort that is known.
   */
  lemma ReadingAnAddress(t: Text, list: seq<Param>, v: string)
    ensures
      var f := ParseFilters(t, list);
      && (v in f.tags <==> v in RouteTags() && Param(Tag, v) in list)
      && (v in f.holds <==> v != "" && exists p :: p in list && p.key in {Hold, HoldId} && t.trim(p.value) == v)
      && FirstRead(list, MinGrade, s => ReadGrade(t, s), f.minGrade)
      && (exists hi :: FirstRead(list, MaxGrade, s => ReadGrade(t, s), hi) && (hi.Some? ==> hi.value in VGrades())
           && f.maxGrade == if Inverted(f.minGrade, hi) then None else hi)
      && FirstRead(list, Progress, (s: string) => if s in ProgressValues() then Some(s) else None, f.progress)
      && FirstRead(list, MinStars, s => ReadStars(t, s), f.minStars)
      && FirstRead(list, Circuit, s => ReadText(t, s), f.circuit)
      && (f.hasBeta <==> Param(Beta, "1") in list)
  {
    hide FirstRead, Finds, Inverted, Select, Trimmed, GradeBound, FirstNonBlank, FirstStars, FirstIn, VGrades, RouteTags, ProgressValues;
    var grade := s => ReadGrade(t, s);
    var text := s => ReadText(t, s);
    var stars := s => ReadStars(t, s);
    var known := (s: string) => if s in ProgressValues() then Some(s) else None;
    forall key ensures Finds(grade, Values(list, key), GradeBound(t, Values(list, key)))
      && Finds(text, Values(list, key), FirstNonBlank(t, Values(list, key)))
      && Finds(stars, Values(list, key), FirstStars(t, Values(list, key)))
      && Finds(known, Values(list, key), FirstIn(ProgressValues(), Values(list, key)))
    {
      FindersFind(t, ProgressValues(), Values(list, key), grade, text, stars, known);
    }
    FindingReadsFirst(list, MinGrade, grade, GradeBound(t, Values(list, MinGrade)));
    FindingReadsFirst(list, MaxGrade, grade, GradeBound(t, Values(list, MaxGrade)));
    FindingReadsFirst(list, Progress, known, FirstIn(ProgressValues(), Values(list, Progress)));
    FindingReadsFirst(list, MinStars, stars, FirstStars(t, Values(list, MinStars)));
    FindingReadsFirst(list, Circuit, text, FirstNonBlank(t, Values(list, Circuit)));
    SelectMembers(RouteTags(), Values(list, Tag));
    ValueMembers(list, Tag, v);
    ValueMembers(list, Beta, "1");
    HoldsInAddress(t, list, v);
  }

  lemma HoldsInAddress(t: Text, list: seq<Param>, h: string)
    ensures h in HoldIds(t, Values(list, Hold) + Values(list, HoldId))
       <==> h != "" && exists p :: p in list && p.key in {Hold, HoldId} && t.trim(p.value) == h
  {
    var values := Values(list, Hold) + Values(list, HoldId);
    TrimmedMembers(t, values, h);
    forall v ensures v in values <==> Param(Hold, v) in list || Param(HoldId, v) in list {
      ValueMembers(list, Hold, v);
      ValueMembers(list, HoldId, v);
    }
    if p :| p in list && p.key in {Hold, HoldId} && t.trim(p.value) == h { assert p == Param(p.key, p.value); }
  }

  // ---------------------------------------------------------------- writing

  function Optional(value: Option<string>): seq<string> {
    if value.Some? && value.value != "" then [value.value] else []
  }

  function FilterGroups(t: Text, f: Filters): seq<Group> {
    [Group(Tag, ParseTags(f.tags)), Group(HoldId, []), Group(Hold, HoldIds(t, f.holds)),
     Group(MinGrade, Optional(f.minGrade)), Group(MaxGrade, Optional(f.maxGrade)), Group(Progress, Optional(f.progress)),
     Group(MinStars, if IsStars(f.minStars) then [t.show(f.minStars.value)] else []),
     Group(Circuit, Optional(f.circuit)), Group(Beta, if f.hasBeta then ["1"] else [])]
  }

  function SortGroup(sort: string): Group {
    Group(Sort, if sort != NEWEST then [sort] else [])
  }

  /** The names that mark a list as carrying route-list state; the older `holdId` is not among them. */
  const LIST_KEYS := [Tag, Hold, MinGrade, MaxGrade, Progress, MinStars, Circuit, Beta, Sort]

  function Collected(saved: seq<Param>, keys: seq<Key>): seq<Param> {
    if keys == [] then []
    else Collected(saved, keys[..|keys| - 1]) + Tagged(keys[|keys| - 1], Values(saved, keys[|keys| - 1]))
  }

  class SearchParams {
    var list: seq<Param>

    constructor (list: seq<Param>)
      ensures this.list == list
    {
      this.list := list;
    }

    method Delete(key: Key)
      modifies this
      ensures list == Without(old(list), {key})
    {
      list := Without(list, {key});
    }

    method Append(key: Key, value: string)
      modifies this
      ensures list == old(list) + [Param(key, value)]
    {
      list := list + [Param(key, value)];
    }

    method Set(key: Key, value: string)
      modifies this
      ensures list == Put(old(list), key, value)
    {
      list := Put(list, key, value);
    }

    method AppendAll(key: Key, values: seq<string>)
      modifies this
      ensures list == old(list) + Tagged(key, values)
    {
      assert values[..0] == [];
      for i := 0 to |values|
        invariant list == old(list) + Tagged(key, values[..i])
      {
        Append(key, values[i]);
        TaggedGrows(key, values[..i], values[i]);
        assert values[..i + 1] == values[..i] + [values[i]];
      }
      assert values[..|values|] == values;
    }

    /** Deletes a name and, if there is a value, sets it. */
    method Replace(key: Key, value: Option<string>)
      modifies this
      ensures list == Replaced(old(list), Group(key, if value.Some? then [value.value] else []))
    {
      Delete(key);
      if value.Some? {
        Set(key, value.value);
        PutAbsent(old(list), key, value.value);
      } else {
        assert Tagged(key, []) == [];
      }
    }

    method ReplaceText(key: Key, value: Option<string>)
      modifies this
      ensures list == Replaced(old(list), Group(key, Optional(value)))
    {
      Replace(key, if value.Some? && value.value != "" then value else None);
    }

    method WriteRouteFilters(t: Text, f: Filters)
      modifies this
      ensures list == Rewrite(old(list), FilterGroups(t, f))
    {
      hide Rewrite, Replaced, Without, ParseTags, HoldIds, Optional, Tagged;
      ghost var groups := FilterGroups(t, f);
      WriteTags(t, f);
      WriteHolds(t, f);
      ReplaceText(MinGrade, f.minGrade);
      ReplaceText(MaxGrade, f.maxGrade);
      ReplaceText(Progress, f.progress);
      Replace(MinStars, if IsStars(f.minStars) then Some(t.show(f.minStars.value)) else None);
      ReplaceText(Circuit, f.circuit);
      Replace(Beta, if f.hasBeta then Some("1") else None);
      RewriteNine(old(list), groups);
    }

    method WriteTags(t: Text, f: Filters)
      modifies this
      ensures list == Replaced(old(list), FilterGroups(t, f)[0])
    {
      Delete(Tag);
      AppendAll(Tag, ParseTags(f.tags));
    }

    method WriteHolds(t: Text, f: Filters)
      modifies this
      ensures list == Replaced(Replaced(old(list), FilterGroups(t, f)[1]), FilterGroups(t, f)[2])
    {
      Delete(Hold);
      Delete(HoldId);
      AppendAll(Hold, HoldIds(t, f.holds));
      WithoutTwice(old(list), {Hold}, {HoldId});
      WithoutTwice(old(list), {HoldId}, {Hold});
      assert {Hold} + {HoldId} == {HoldId} + {Hold};
      assert Replaced(old(list), Group(HoldId, [])) == Without(old(list), {HoldId});
    }

    method WriteRouteSort(sort: string)
      modifies this
      ensures list == Replaced(old(list), SortGroup(sort))
    {
      Replace(Sort, if sort != NEWEST then Some(sort) else None);
    }

    /** The rewrite of the route list: filters, then sort, both as read before. */
    method Canonicalise(t: Text)
      modifies this
      ensures list == Canonical(t, old(list))
    {
      var f := ParseFilters(t, list);
      var sort := ParseSort(list);
      WriteRouteFilters(t, f);
      WriteRouteSort(sort);
      RewriteOneMore(old(list), FilterGroups(t, f), SortGroup(sort));
    }

    /** Restoring a saved list: its values are appended name by name. */
    method MergeSaved(saved: seq<Param>)
      modifies this
      ensures list == old(list) + Collected(saved, LIST_KEYS)
    {
      hide Collected, Values, Tagged;
      var keys := LIST_KEYS;
      CollectedNothing(saved);
      for i := 0 to |keys|
        invariant list == old(list) + Collected(saved, keys[..i])
      {
        AppendAll(keys[i], Values(saved, keys[i]));
        CollectedGrows(saved, keys, i);
      }
      assert keys[..|keys|] == keys;
    }
  }

  lemma CollectedNothing(saved: seq<Param>)
    ensures Collected(saved, []) == []
  {
  }

  lemma CollectedGrows(saved: seq<Param>, keys: seq<Key>, i: nat)
    requires i < |keys|
    ensures Collected(saved, keys[..i + 1]) == Collected(saved, keys[..i]) + Tagged(keys[i], Values(saved, keys[i]))
  {
    hide Values, Tagged;
    assert keys[..i + 1][..i] == keys[..i];
  }

  lemma RewriteOneMore(list: seq<Param>, groups: seq<Group>, g: Group)
    ensures Rewrite(list, groups + [g]) == Replaced(Rewrite(list, groups), g)
  {
    assert (groups + [g])[..|groups|] == groups;
  }

  lemma RewriteNine(list: seq<Param>, g: seq<Group>)
    requires |g| == 9
    ensures Rewrite(list, g) ==
      Replaced(Replaced(Replaced(Replaced(Replaced(Replaced(Replaced(Replaced(Replaced(list,
        g[0]), g[1]), g[2]), g[3]), g[4]), g[5]), g[6]), g[7]), g[8])
  {
    hide Replaced;
    assert forall n :: 1 <= n <= 9 ==> g[..n][..n - 1] == g[..n - 1];
    assert g[..9] == g && g[..0] == [];
    forall n | 1 <= n <= 9 ensures Rewrite(list, g[..n]) == Replaced(Rewrite(list, g[..n - 1]), g[n - 1]) {}
  }

  ghost function CanonicalGroups(t: Text, list: seq<Param>): seq<Group> {
    FilterGroups(t, ParseFilters(t, list)) + [SortGroup(ParseSort(list))]
  }

  ghost function Canonical(t: Text, list: seq<Param>): seq<Param> {
    Rewrite(list, CanonicalGroups(t, list))
  }

  // ---------------------------------------------------------------- what reading returns can be written

  ghost predicate Clean(t: Text, holds: seq<string>) {
    && (forall h :: h in holds ==> h != "" && t.trim(h) == h)
    && (forall i, j :: 0 <= i < j < |holds| ==> holds[i] != holds[j])
  }

  /** Filters as the list shows them: each part in the form in which it is read. */
  ghost predicate Readable(t: Text, f: Filters) {
    && f.tags == ParseTags(f.tags)
    && Clean(t, f.holds)
    && (f.minGrade.Some? ==> f.minGrade.value in VGrades())
    && (f.maxGrade.Some? ==> f.maxGrade.value in VGrades())
    && !Inverted(f.minGrade, f.maxGrade)
    && (f.progress.Some? ==> f.progress.value in ProgressValues())
    && (f.minStars.Some? ==> IsStars(f.minStars))
    && (f.circuit.Some? ==> f.circuit.value != "" && t.trim(f.circuit.value) == f.circuit.value)
  }

  lemma {:induction false} SelectMembers(order: seq<string>, values: seq<string>)
    ensures forall x :: x in Select(order, values) <==> x in order && x in values
  {
    if order != [] { SelectMembers(order[1..], values); }
  }

  lemma {:induction false} SelectByMembership(order: seq<string>, a: seq<string>, b: seq<string>)
    requires forall x :: x in order ==> (x in a <==> x in b)
    ensures Select(order, a) == Select(order, b)
  {
    if order != [] { SelectByMembership(order[1..], a, b); }
  }

  lemma ParsedTagsStay(values: seq<string>)
    ensures ParseTags(ParseTags(values)) == ParseTags(values)
  {
    hide RouteTags;
    SelectMembers(RouteTags(), values);
    SelectByMembership(RouteTags(), ParseTags(values), values);
  }

  lemma {:induction false} TrimmedIsClean(t: Text, values: seq<string>)
    requires Sound(t)
    ensures forall v :: v in Trimmed(t, values) ==> v != "" && t.trim(v) == v
  {
    if values != [] { TrimmedIsClean(t, values[1..]); }
  }

  lemma {:induction false} CleanStays(t: Text, holds: seq<string>)
    requires Clean(t, holds)
    ensures HoldIds(t, holds) == holds
  {
    TrimmedStays(t, holds);
    DistinctStays(holds);
  }

  lemma {:induction false} TrimmedStays(t: Text, values: seq<string>)
    requires forall v :: v in values ==> v != "" && t.trim(v) == v
    ensures Trimmed(t, values) == values
  {
    if values != [] {
      assert values[0] in values && forall v :: v in values[1..] ==> v in values;
      TrimmedStays(t, values[1..]);
    }
  }

  lemma {:induction false} DistinctStays(values: seq<string>)
    requires forall i, j :: 0 <= i < j < |values| ==> values[i] != values[j]
    ensures Distinct(values) == values
  {
    if values != [] {
      DistinctStays(values[..|values| - 1]);
      assert values == values[..|values| - 1] + [values[|values| - 1]];
    }
  }

  lemma ParsedIsReadable(t: Text, list: seq<Param>)
    requires Sound(t)
    ensures Readable(t, ParseFilters(t, list))
  {
    hide VGrades, RouteTags, ProgressValues;
    ParsedTagsStay(Values(list, Tag));
    TrimmedIsClean(t, Values(list, Hold) + Values(list, HoldId));
  }

  lemma FilterKeys(t: Text, f: Filters, sort: string)
    ensures DistinctKeys(FilterGroups(t, f)) && DistinctKeys(FilterGroups(t, f) + [SortGroup(sort)])
  {
  }

  /** What each name reads after the filters have been written. */
  ghost predicate Reads(list: seq<Param>, t: Text, f: Filters) {
    && Values(list, Tag) == ParseTags(f.tags)
    && Values(list, HoldId) == []
    && Values(list, Hold) == HoldIds(t, f.holds)
    && Values(list, MinGrade) == Optional(f.minGrade)
    && Values(list, MaxGrade) == Optional(f.maxGrade)
    && Values(list, Progress) == Optional(f.progress)
    && Values(list, MinStars) == (if IsStars(f.minStars) then [t.show(f.minStars.value)] else [])
    && Values(list, Circuit) == Optional(f.circuit)
    && Values(list, Beta) == (if f.hasBeta then ["1"] else [])
  }

  lemma ReadsUnderDistinctKeys(list: seq<Param>, groups: seq<Group>, i: nat)
    requires DistinctKeys(groups) && i < |groups|
    ensures Values(Rewrite(list, groups), groups[i].key) == groups[i].values
  {
    ValuesRewritten(list, groups, groups[i].key);
    FoundAt(groups, i, Values(list, groups[i].key));
  }

  lemma {:induction false} FoundAt(groups: seq<Group>, i: nat, otherwise: seq<string>)
    requires DistinctKeys(groups) && i < |groups|
    ensures ValuesIn(groups, groups[i].key, otherwise) == groups[i].values
  {
    if i < |groups| - 1 {
      FoundAt(groups[..|groups| - 1], i, otherwise);
    }
  }

  lemma WrittenReads(t: Text, list: seq<Param>, f: Filters, more: seq<Group>)
    requires DistinctKeys(FilterGroups(t, f) + more)
    ensures Reads(Rewrite(list, FilterGroups(t, f) + more), t, f)
  {
    hide Rewrite, Values, ParseTags, HoldIds, Optional, DistinctKeys;
    var groups := FilterGroups(t, f) + more;
    forall i | 0 <= i < 9 ensures Values(Rewrite(list, groups), groups[i].key) == groups[i].values {
      ReadsUnderDistinctKeys(list, groups, i);
    }
    assert groups[0].key == Tag && groups[1].key == HoldId && groups[2].key == Hold;
    assert groups[3].key == MinGrade && groups[4].key == MaxGrade && groups[5].key == Progress;
    assert groups[6].key == MinStars && groups[7].key == Circuit && groups[8].key == Beta;
  }

  lemma ReadBack(t: Text, list: seq<Param>, f: Filters)
    requires Sound(t) && Readable(t, f) && Reads(list, t, f)
    ensures ParseFilters(t, list) == f
  {
    hide RouteTags, ProgressValues, VGrades, Values;
    CleanStays(t, f.holds);
    assert f.holds + [] == f.holds;
    NamesAreNotBlank();
  }

  lemma NamesAreNotBlank()
    ensures "" !in VGrades() && "" !in ProgressValues()
  {
    assert forall g :: g in VGrades() ==> |g| > 0;
    assert forall g :: g in ProgressValues() ==> |g| > 0;
  }

  /** Whatever else is in the address, filters in readable form are read back as they were written. */
  lemma WrittenFiltersAreReadBack(t: Text, list: seq<Param>, f: Filters)
    requires Sound(t) && Readable(t, f)
    ensures ParseFilters(t, Rewrite(list, FilterGroups(t, f))) == f
  {
    hide Readable, Reads, ParseFilters, Rewrite, FilterGroups;
    FilterKeys(t, f, NEWEST);
    assert FilterGroups(t, f) + [] == FilterGroups(t, f);
    WrittenReads(t, list, f, []);
    ReadBack(t, Rewrite(list, FilterGroups(t, f)), f);
  }

  /** The readable filters are exactly those that some address shows. */
  lemma ReadableIsWhatAddressesShow(t: Text, f: Filters)
    requires Sound(t)
    ensures Readable(t, f) <==> exists list :: ParseFilters(t, list) == f
  {
    hide Readable, ParseFilters, Rewrite, FilterGroups;
    if Readable(t, f) {
      WrittenFiltersAreReadBack(t, [], f);
    }
    if list :| ParseFilters(t, list) == f {
      ParsedIsReadable(t, list);
    }
  }

  // ---------------------------------------------------------------- the rewrite settles

  /** Canonicalising changes neither the filters nor the sort that are shown. */
  lemma CanonicalShowsTheSame(t: Text, list: seq<Param>)
    requires Sound(t)
    ensures ParseFilters(t, Canonical(t, list)) == ParseFilters(t, list)
    ensures ParseSort(Canonical(t, list)) == ParseSort(list)
  {
    hide Readable, Reads, ParseFilters, Rewrite, FilterGroups;
    var (f, sort) := (ParseFilters(t, list), ParseSort(list));
    FilterKeys(t, f, sort);
    ParsedIsReadable(t, list);
    WrittenReads(t, list, f, [SortGroup(sort)]);
    ReadBack(t, Canonical(t, list), f);
    ReadsUnderDistinctKeys(list, CanonicalGroups(t, list), |FilterGroups(t, f)|);
    SortReadsBack(Canonical(t, list), sort);
  }

  lemma SortReadsBack(list: seq<Param>, sort: string)
    requires sort in SortValues() && Values(list, Sort) == SortGroup(sort).values
    ensures ParseSort(list) == sort
  {
    hide SortValues;
  }

  lemma CanonicalIsOthersThenPrinted(t: Text, list: seq<Param>)
    ensures Canonical(t, list) == Without(list, Keys(CanonicalGroups(t, list))) + Printed(CanonicalGroups(t, list))
  {
    hide FilterGroups, ParseFilters;
    FilterKeys(t, ParseFilters(t, list), ParseSort(list));
    RewriteIsOthersThenPrinted(list, CanonicalGroups(t, list));
  }

  /** The unrelated parameters stay as they were, in their order. */
  lemma UnrelatedStay(t: Text, list: seq<Param>)
    ensures Without(Canonical(t, list), LIST_STATE) == Without(list, LIST_STATE)
    ensures Without(list, LIST_STATE) <= Canonical(t, list)
  {
    hide FilterGroups, ParseFilters, Canonical;
    CanonicalIsOthersThenPrinted(t, list);
    CanonicalKeys(t, list);
    var groups := CanonicalGroups(t, list);
    WithoutConcat(Without(list, LIST_STATE), Printed(groups), LIST_STATE);
    WithoutTwice(list, LIST_STATE, LIST_STATE);
    WithoutPrinted(groups, LIST_STATE);
    assert LIST_STATE + LIST_STATE == LIST_STATE;
  }

  const LIST_STATE := {Tag, Hold, HoldId, MinGrade, MaxGrade, Progress, MinStars, Circuit, Beta, Sort}

  lemma CanonicalKeys(t: Text, list: seq<Param>)
    ensures Keys(CanonicalGroups(t, list)) == LIST_STATE
  {
    hide Keys, ParseFilters, ParseTags, HoldIds, Optional;
    KeysOfTen(CanonicalGroups(t, list));
  }

  lemma KeysOfTen(g: seq<Group>)
    requires |g| == 10
    requires g[0].key == Tag && g[1].key == HoldId && g[2].key == Hold && g[3].key == MinGrade && g[4].key == MaxGrade
    requires g[5].key == Progress && g[6].key == MinStars && g[7].key == Circuit && g[8].key == Beta && g[9].key == Sort
    ensures Keys(g) == LIST_STATE
  {
    forall k | k in LIST_STATE ensures k in Keys(g) {
      assert forall i :: 0 <= i < 10 ==> g[i] in g;
    }
    forall k | k in Keys(g) ensures k in LIST_STATE {
      var i :| 0 <= i < |g| && g[i].key == k;
      assert 0 <= i < 10;
    }
  }

  /** So the rewrite in the route list settles after one step. */
  lemma CanonicalSettles(t: Text, list: seq<Param>)
    requires Sound(t)
    ensures Canonical(t, Canonical(t, list)) == Canonical(t, list)
  {
    hide FilterGroups, ParseFilters, ParseSort, Rewrite;
    CanonicalShowsTheSame(t, list);
    FilterKeys(t, ParseFilters(t, list), ParseSort(list));
    RewriteTwice(list, CanonicalGroups(t, list));
  }

  // ---------------------------------------------------------------- saving and restoring

  /** What is saved for a wall: the list state alone. */
  ghost function Saved(t: Text, list: seq<Param>): seq<Param> {
    Rewrite([], CanonicalGroups(t, list))
  }

  predicate HasListParams(list: seq<Param>) {
    exists k :: k in LIST_KEYS && Values(list, k) != []
  }

  lemma {:induction false} CollectedValues(saved: seq<Param>, keys: seq<Key>, key: Key)
    requires forall i, j :: 0 <= i < j < |keys| ==> keys[i] != keys[j]
    ensures Values(Collected(saved, keys), key) == if key in keys then Values(saved, key) else []
  {
    if keys != [] {
      var (front, last) := (keys[..|keys| - 1], keys[|keys| - 1]);
      assert keys == front + [last];
      CollectedValues(saved, front, key);
      ValuesConcat(Collected(saved, front), Tagged(last, Values(saved, last)), key);
      TaggedValues(last, Values(saved, last), key);
    }
  }

  /**
   Restoring into an address without list parameters shows the saved filters and sort again,
   except that any older `holdId` parameters the address does have join the saved holds.
   */
  lemma RestoringShowsWhatWasSaved(t: Text, list: seq<Param>, here: seq<Param>)
    requires Sound(t) && !HasListParams(here)
    ensures var merged := here + Collected(Saved(t, list), LIST_KEYS);
      ParseFilters(t, merged) ==
        ParseFilters(t, list).(holds := HoldIds(t, ParseFilters(t, list).holds + Values(here, HoldId)))
      && ParseSort(merged) == ParseSort(list)
  {
    hide Values, Collected, ParseFilters, ParseSort, Saved, HasListParams;
    SavedShowsTheSame(t, list);
    MergedValues(here, Saved(t, list));
    SameButHolds(t, Saved(t, list), here + Collected(Saved(t, list), LIST_KEYS));
  }

  lemma MergedValues(here: seq<Param>, saved: seq<Param>)
    requires !HasListParams(here)
    ensures forall k :: k in LIST_KEYS ==> Values(here + Collected(saved, LIST_KEYS), k) == Values(saved, k)
    ensures Values(here + Collected(saved, LIST_KEYS), HoldId) == Values(here, HoldId)
  {
    hide Values, Collected;
    forall k ensures Values(here + Collected(saved, LIST_KEYS), k) == Values(here, k) + (if k in LIST_KEYS then Values(saved, k) else []) {
      ValuesConcat(here, Collected(saved, LIST_KEYS), k);
      CollectedValues(saved, LIST_KEYS, k);
    }
    forall k | k in LIST_KEYS ensures Values(here + Collected(saved, LIST_KEYS), k) == Values(saved, k) {
      assert Values(here, k) == [];
    }
  }

  lemma SameButHolds(t: Text, saved: seq<Param>, merged: seq<Param>)
    requires forall k :: k in LIST_KEYS ==> Values(merged, k) == Values(saved, k)
    ensures ParseFilters(t, merged) == ParseFilters(t, saved).(holds := HoldIds(t, Values(saved, Hold) + Values(merged, HoldId)))
    ensures ParseSort(merged) == ParseSort(saved)
  {
    hide Values, HoldIds, GradeBound, FirstIn, FirstStars, FirstNonBlank, ParseTags, Inverted;
    assert Tag in LIST_KEYS && Hold in LIST_KEYS && MinGrade in LIST_KEYS && MaxGrade in LIST_KEYS && Progress in LIST_KEYS;
    assert MinStars in LIST_KEYS && Circuit in LIST_KEYS && Beta in LIST_KEYS && Sort in LIST_KEYS;
  }

  lemma SavedShowsTheSame(t: Text, list: seq<Param>)
    requires Sound(t)
    ensures ParseFilters(t, Saved(t, list)) == ParseFilters(t, list) && ParseSort(Saved(t, list)) == ParseSort(list)
    ensures Values(Saved(t, list), Hold) == ParseFilters(t, list).holds && Values(Saved(t, list), HoldId) == []
  {
    hide Readable, ParseFilters, Rewrite, FilterGroups, HoldIds, ParseTags;
    var (f, sort) := (ParseFilters(t, list), ParseSort(list));
    FilterKeys(t, f, sort);
    ParsedIsReadable(t, list);
    WrittenReads(t, [], f, [SortGroup(sort)]);
    ReadBack(t, Saved(t, list), f);
    ReadableHolds(t, f);
    ReadsUnderDistinctKeys([], CanonicalGroups(t, list), |FilterGroups(t, f)|);
    SortReadsBack(Saved(t, list), sort);
  }

  lemma ReadableHolds(t: Text, f: Filters)
    requires Readable(t, f)
    ensures HoldIds(t, f.holds) == f.holds
  {
    CleanStays(t, f.holds);
  }
}
