/**
 The sort rule (internal/listing/m3u8/rules/playlist/sort.go).
 */
module SortRule {
  import opened Basics
  import opened Buckets
  import opened ChannelStore
  import opened Sorting
  import N = NaturalOrder

  datatype GroupBy = GroupBy(selector: Option<Selector>, order: seq<Pattern>)

  /** An absent order is an empty one. */
  datatype Rule = Rule(selector: Option<Selector>, order: seq<Pattern>, groupBy: Option<GroupBy>)

  /** Index of the first pattern from `i` on with (or, if `blank`, without) text that matches. */
  function FirstMatch(patterns: seq<Pattern>, value: string, blank: bool, i: nat): (k: nat)
    requires i <= |patterns|
    ensures i <= k <= |patterns|
    decreases |patterns| - i
  {
    if i == |patterns| then i
    else if blank && patterns[i].text == "" then i
    else if !blank && patterns[i].text != "" && patterns[i].matches(value) then i
    else FirstMatch(patterns, value, blank, i + 1)
  }

  /** Position in a configured order: first match with text, else the first empty pattern, else the end. */
  function Rank(patterns: seq<Pattern>, value: string): nat {
    var k := FirstMatch(patterns, value, false, 0);
    if k < |patterns| then k else FirstMatch(patterns, value, true, 0)
  }

  predicate MatchesText(p: Pattern, value: string) {
    p.text != "" && p.matches(value)
  }

  lemma {:induction false} FirstMatchIs(patterns: seq<Pattern>, value: string, blank: bool, i: nat)
    requires i <= |patterns|
    ensures var k := FirstMatch(patterns, value, blank, i);
      && (k < |patterns| ==> if blank then patterns[k].text == "" else MatchesText(patterns[k], value))
      && forall j | i <= j < k :: if blank then patterns[j].text != "" else !MatchesText(patterns[j], value)
    decreases |patterns| - i
  {
    if i < |patterns| {
      FirstMatchIs(patterns, value, blank, i + 1);
    }
  }

  /** The rank is the first textual match; without one the first empty pattern; without either, behind all. */
  lemma RankIs(patterns: seq<Pattern>, value: string)
    ensures var k := Rank(patterns, value);
      if exists p :: p in patterns && MatchesText(p, value) then
        k < |patterns| && MatchesText(patterns[k], value) && forall j | 0 <= j < k :: !MatchesText(patterns[j], value)
      else if exists p :: p in patterns && p.text == "" then
        k < |patterns| && patterns[k].text == "" && forall j | 0 <= j < k :: patterns[j].text != ""
      else k == |patterns|
  {
    FirstMatchIs(patterns, value, false, 0);
    FirstMatchIs(patterns, value, true, 0);
    var t, b := FirstMatch(patterns, value, false, 0), FirstMatch(patterns, value, true, 0);
    assert t < |patterns| ==> patterns[t] in patterns;
    assert b < |patterns| ==> patterns[b] in patterns;
  }

  function GroupKey(rule: Rule, ch: Channel): string {
    if rule.groupBy.None? || rule.groupBy.value.selector.None? then ""
    else match ch.Field(rule.groupBy.value.selector)
         case Some(v) => v
         case None => ""
  }

  function GroupPriority(rule: Rule, name: string): nat {
    if rule.groupBy.None? || rule.groupBy.value.order == [] then 0 else Rank(rule.groupBy.value.order, name)
  }

  function ChannelPriority(rule: Rule, ch: Channel): nat {
    if rule.order == [] then 0
    else match ch.Field(rule.selector)
         case None => |rule.order|
         case Some(v) => Rank(rule.order, v)
  }

  predicate GroupLess(rule: Rule, a: string, b: string) {
    var p, q := GroupPriority(rule, a), GroupPriority(rule, b);
    if p != q then p < q else N.Less(a, b)
  }

  /** The comparator given to `sort.Slice`. */
  predicate ChannelLess(rule: Rule, a: Channel, b: Channel) {
    var p, q := ChannelPriority(rule, a), ChannelPriority(rule, b);
    if p != q then p < q
    else
      var v, w := a.Field(rule.selector), b.Field(rule.selector);
      if v.None? then false else if w.None? then true else N.Less(v.value, w.value)
  }

  /** What the comparator depends on: priority, then presence of the field, then its natural key. */
  datatype SortKey = SortKey(priority: nat, field: Option<seq<N.Token>>)

  function KeyOf(rule: Rule, ch: Channel): SortKey {
    SortKey(ChannelPriority(rule, ch),
            match ch.Field(rule.selector)
            case None => None
            case Some(v) => Some(N.Key(v)))
  }

  /** Ties under the comparator are exactly equal keys, and it is a strict weak order. */
  lemma ChannelLessIsStrictWeak(rule: Rule, a: Channel, b: Channel, c: Channel)
    ensures !ChannelLess(rule, a, a)
    ensures !(ChannelLess(rule, a, b) && ChannelLess(rule, b, a))
    ensures ChannelLess(rule, a, b) && ChannelLess(rule, b, c) ==> ChannelLess(rule, a, c)
    ensures ChannelLess(rule, a, c) ==> ChannelLess(rule, a, b) || ChannelLess(rule, b, c)
    ensures !ChannelLess(rule, a, b) && !ChannelLess(rule, b, a) <==> KeyOf(rule, a) == KeyOf(rule, b)
  {
    var u, v, w := a.Field(rule.selector), b.Field(rule.selector), c.Field(rule.selector);
    var x, y, z := if u.Some? then u.value else "", if v.Some? then v.value else "", if w.Some? then w.value else "";
    N.NaturalIsStrictWeak(x, y, z);
  }

  lemma GroupLessIsStrictWeak(rule: Rule, a: string, b: string, c: string)
    ensures !GroupLess(rule, a, a)
    ensures GroupLess(rule, a, b) && GroupLess(rule, b, c) ==> GroupLess(rule, a, c)
    ensures GroupLess(rule, a, c) ==> GroupLess(rule, a, b) || GroupLess(rule, b, c)
  {
    N.NaturalIsStrictWeak(a, b, c);
  }

  /** Between channels with the field the configured order decides, and natural order among equal ranks. */
  lemma OrderDecides(rule: Rule, a: Channel, b: Channel)
    requires a.Field(rule.selector).Some? && b.Field(rule.selector).Some?
    ensures var v, w := a.Field(rule.selector).value, b.Field(rule.selector).value;
      ChannelLess(rule, a, b) <==>
        || Rank(rule.order, v) < Rank(rule.order, w)
        || (Rank(rule.order, v) == Rank(rule.order, w) && N.KeyLess(N.Key(v), N.Key(w)))
  {
    if rule.order == [] {
      RankIs(rule.order, a.Field(rule.selector).value);
      RankIs(rule.order, b.Field(rule.selector).value);
    }
  }

  /** A missing field comes after every present one of the same priority, and never before anything of it. */
  lemma MissingFieldLast(rule: Rule, a: Channel, b: Channel)
    requires a.Field(rule.selector).Some? && b.Field(rule.selector).None?
    ensures ChannelLess(rule, a, b) && !ChannelLess(rule, b, a)
  {
    if rule.order != [] {
      var v := a.Field(rule.selector).value;
      assert Rank(rule.order, v) <= |rule.order|;
    }
  }

  // ---------- The order of a sorted store ----------

  function KeyAt(rule: Rule, cells: seq<Channel>, h: Handle): string {
    if h < |cells| then GroupKey(rule, cells[h]) else ""
  }

  function KeyFunction(rule: Rule, cells: seq<Channel>): Handle -> string {
    (h: Handle) => KeyAt(rule, cells, h)
  }

  function Comparator(rule: Rule, cells: seq<Channel>): (Handle, Handle) -> bool {
    (a: Handle, b: Handle) => a < |cells| && b < |cells| && ChannelLess(rule, cells[a], cells[b])
  }

  /** Equal group keys are together. */
  ghost predicate Contiguous(rule: Rule, cells: seq<Channel>, hs: seq<Handle>) {
    forall i, j, k | 0 <= i < j < k < |hs| && KeyAt(rule, cells, hs[i]) == KeyAt(rule, cells, hs[k]) ::
      KeyAt(rule, cells, hs[j]) == KeyAt(rule, cells, hs[i])
  }

  /** Groups come in order of group priority, then naturally. */
  ghost predicate GroupsOrdered(rule: Rule, cells: seq<Channel>, hs: seq<Handle>) {
    forall i, j | 0 <= i < j < |hs| :: !GroupLess(rule, KeyAt(rule, cells, hs[j]), KeyAt(rule, cells, hs[i]))
  }

  /** Within a group, channels are in comparator order. */
  ghost predicate GroupsSorted(rule: Rule, cells: seq<Channel>, hs: seq<Handle>) {
    forall i, j | 0 <= i < j < |hs| && KeyAt(rule, cells, hs[i]) == KeyAt(rule, cells, hs[j]) ::
      !Comparator(rule, cells)(hs[j], hs[i])
  }

  lemma ComparatorIsStrictWeak(rule: Rule, cells: seq<Channel>, hs: seq<Handle>)
    requires InRange(cells, hs)
    ensures StrictWeak(Comparator(rule, cells), hs)
  {
    forall x, y, z | x in hs && y in hs && z in hs
      ensures !Comparator(rule, cells)(x, x)
      ensures Comparator(rule, cells)(x, y) && Comparator(rule, cells)(y, z) ==> Comparator(rule, cells)(x, z)
      ensures Comparator(rule, cells)(x, z) ==> Comparator(rule, cells)(x, y) || Comparator(rule, cells)(y, z)
    {
      ChannelLessIsStrictWeak(rule, cells[x], cells[y], cells[z]);
    }
  }

  /** The i-th channel laid out belongs to the group of the p-th name. */
  predicate Placed(rule: Rule, cells: seq<Channel>, out: seq<Handle>, names: seq<string>, i: nat, p: nat) {
    i < |out| && p < |names| && names[p] == KeyAt(rule, cells, out[i])
  }

  /** The groups gathered so far sit in `out` in the order of their names. */
  ghost predicate Laid(rule: Rule, cells: seq<Channel>, out: seq<Handle>, names: seq<string>) {
    && (forall i | 0 <= i < |out| :: KeyAt(rule, cells, out[i]) in names)
    && (forall i: nat, j: nat, p: nat, q: nat
          | i < j && Placed(rule, cells, out, names, i, p) && Placed(rule, cells, out, names, j, q) :: p <= q)
    && GroupsSorted(rule, cells, out)
  }

  lemma PlaceOf(rule: Rule, cells: seq<Channel>, out: seq<Handle>, names: seq<string>, i: nat) returns (p: nat)
    requires i < |out| && KeyAt(rule, cells, out[i]) in names
    ensures Placed(rule, cells, out, names, i, p)
  {
    p :| 0 <= p < |names| && names[p] == KeyAt(rule, cells, out[i]);
  }

  lemma LayNext(rule: Rule, cells: seq<Channel>, out: seq<Handle>, names: seq<string>, k: string, group: seq<Handle>)
    requires Laid(rule, cells, out, names) && k !in names
    requires forall h | h in group :: KeyAt(rule, cells, h) == k
    requires Sorted(Comparator(rule, cells), group)
    ensures Laid(rule, cells, out + group, names + [k])
  {
    var out', names' := out + group, names + [k];
    forall i | 0 <= i < |out'|
      ensures KeyAt(rule, cells, out'[i]) == if i < |out| then KeyAt(rule, cells, out[i]) else k
    {
      if i >= |out| {
        assert out'[i] == group[i - |out|] && group[i - |out|] in group;
      }
    }
    forall i: nat, j: nat, p: nat, q: nat
      | i < j && Placed(rule, cells, out', names', i, p) && Placed(rule, cells, out', names', j, q) ensures p <= q
    {
      if j < |out| {
        assert Placed(rule, cells, out, names, i, p) && Placed(rule, cells, out, names, j, q);
      }
    }
    forall i, j | 0 <= i < j < |out'| && KeyAt(rule, cells, out'[i]) == KeyAt(rule, cells, out'[j])
      ensures !Comparator(rule, cells)(out'[j], out'[i])
    {
      if i >= |out| {
        assert out'[i] == group[i - |out|] && out'[j] == group[j - |out|];
      }
    }
  }

  /** A layout along distinct names in group order has every property wanted of the result. */
  lemma LaidIsOrdered(rule: Rule, cells: seq<Channel>, out: seq<Handle>, names: seq<string>)
    requires Laid(rule, cells, out, names)
    requires Sorted((a: string, b: string) => GroupLess(rule, a, b), names)
    ensures Contiguous(rule, cells, out) && GroupsOrdered(rule, cells, out) && GroupsSorted(rule, cells, out)
  {
    forall i, j | 0 <= i < j < |out|
      ensures !GroupLess(rule, KeyAt(rule, cells, out[j]), KeyAt(rule, cells, out[i]))
    {
      var p := PlaceOf(rule, cells, out, names, i);
      var q := PlaceOf(rule, cells, out, names, j);
      GroupLessIsStrictWeak(rule, names[p], names[p], names[p]);
    }
    forall i, j, k | 0 <= i < j < k < |out| && KeyAt(rule, cells, out[i]) == KeyAt(rule, cells, out[k])
      ensures KeyAt(rule, cells, out[j]) == KeyAt(rule, cells, out[i])
    {
      var p := PlaceOf(rule, cells, out, names, i);
      var q := PlaceOf(rule, cells, out, names, j);
      assert Placed(rule, cells, out, names, k, p);
    }
  }

  /** Sorts one group and appends it. */
  method LayGroup(rule: Rule, cells: seq<Channel>, out: seq<Handle>, group: seq<Handle>, ghost names: seq<string>,
                  ghost k: string) returns (out': seq<Handle>)
    requires Laid(rule, cells, out, names) && k !in names
    requires InRange(cells, group) && forall h | h in group :: KeyAt(rule, cells, h) == k
    ensures Laid(rule, cells, out', names + [k]) && multiset(out') == multiset(out) + multiset(group)
  {
    ComparatorIsStrictWeak(rule, cells, group);
    var sortedGroup := SortSlice(group, Comparator(rule, cells));
    SameElements(sortedGroup, group);
    LayNext(rule, cells, out, names, k, sortedGroup);
    out' := out + sortedGroup;
  }

  /** The group of `k` is the bucket of its channels. */
  ghost predicate IsGroup(rule: Rule, cells: seq<Channel>, channels: seq<Handle>, groups: map<string, seq<Handle>>,
                          key: Handle -> string, k: string)
  {
    && k in groups && groups[k] == Bucket(channels, key, k) && InRange(cells, groups[k])
    && forall h | h in groups[k] :: KeyAt(rule, cells, h) == k
  }

  /** Last loop of `Apply`: each group sorted, one group after the other. */
  method LayOut(rule: Rule, cells: seq<Channel>, ghost channels: seq<Handle>, groups: map<string, seq<Handle>>,
                groupNames: seq<string>, ghost key: Handle -> string) returns (sortedChannels: seq<Handle>)
    requires Distinct(groupNames)
    requires forall k {:trigger IsGroup(rule, cells, channels, groups, key, k)} | k in groupNames ::
      IsGroup(rule, cells, channels, groups, key, k)
    ensures Laid(rule, cells, sortedChannels, groupNames)
    ensures multiset(sortedChannels) == multiset(Within(channels, key, groupNames))
  {
    sortedChannels := [];
    WithinNone(channels, key);
    for n := 0 to |groupNames|
      invariant Laid(rule, cells, sortedChannels, groupNames[..n])
      invariant multiset(sortedChannels) == multiset(Within(channels, key, groupNames[..n]))
    {
      assert groupNames[n] in groupNames;
      assert IsGroup(rule, cells, channels, groups, key, groupNames[n]);
      sortedChannels := LayNth(rule, cells, channels, sortedChannels, groups[groupNames[n]], groupNames, n, key);
    }
    assert groupNames[..|groupNames|] == groupNames;
  }

  method LayNth(rule: Rule, cells: seq<Channel>, ghost channels: seq<Handle>, out: seq<Handle>, group: seq<Handle>,
                groupNames: seq<string>, n: nat, ghost key: Handle -> string) returns (out': seq<Handle>)
    requires n < |groupNames| && Distinct(groupNames)
    requires group == Bucket(channels, key, groupNames[n]) && InRange(cells, group)
    requires forall h | h in group :: KeyAt(rule, cells, h) == groupNames[n]
    requires Laid(rule, cells, out, groupNames[..n])
        && multiset(out) == multiset(Within(channels, key, groupNames[..n]))
    ensures Laid(rule, cells, out', groupNames[..n + 1])
    ensures multiset(out') == multiset(Within(channels, key, groupNames[..n + 1]))
  {
    assert groupNames[..n + 1] == groupNames[..n] + [groupNames[n]];
    WithinNext(channels, key, groupNames, n);
    out' := LayGroup(rule, cells, out, group, groupNames[..n], groupNames[n]);
  }

  method SortNames(rule: Rule, unordered: seq<string>) returns (groupNames: seq<string>)
    requires Distinct(unordered)
    ensures Distinct(groupNames) && multiset(groupNames) == multiset(unordered)
    ensures Sorted((a: string, b: string) => GroupLess(rule, a, b), groupNames)
  {
    forall a, b, c ensures !GroupLess(rule, a, a)
      ensures GroupLess(rule, a, b) && GroupLess(rule, b, c) ==> GroupLess(rule, a, c)
      ensures GroupLess(rule, a, c) ==> GroupLess(rule, a, b) || GroupLess(rule, b, c)
    {
      GroupLessIsStrictWeak(rule, a, b, c);
    }
    groupNames := SortSlice(unordered, (a: string, b: string) => GroupLess(rule, a, b));
    PermutationStaysDistinct(unordered, groupNames);
  }

  /** `Apply` with a group_by. */
  method SortGrouped(rule: Rule, cells: seq<Channel>, channels: seq<Handle>) returns (sortedChannels: seq<Handle>)
    requires InRange(cells, channels)
    ensures multiset(sortedChannels) == multiset(channels)
    ensures Contiguous(rule, cells, sortedChannels)
    ensures GroupsOrdered(rule, cells, sortedChannels)
    ensures GroupsSorted(rule, cells, sortedChannels)
  {
    var key := KeyFunction(rule, cells);
    var groups := Gather(channels, key);
    var unordered := KeysOf(groups);
    var groupNames := SortNames(rule, unordered);
    SameElements(unordered, groupNames);
    forall k | k in groupNames ensures IsGroup(rule, cells, channels, groups, key, k) {
      BucketMembers(channels, key, k);
      SubRange(cells, channels, groups[k]);
    }
    sortedChannels := LayOut(rule, cells, channels, groups, groupNames, key);
    WithinAll(channels, key, groupNames);
    LaidIsOrdered(rule, cells, sortedChannels, groupNames);
  }

  /**
   Where `a` may stand before `b`: a channel with the sort field before any without it; of two with it the
   one of smaller rank first, and natural order within a rank.
   */
  predicate MayPrecede(rule: Rule, a: Channel, b: Channel) {
    match b.Field(rule.selector)
    case None => true
    case Some(w) =>
      match a.Field(rule.selector)
      case None => false
      case Some(v) =>
        || Rank(rule.order, v) < Rank(rule.order, w)
        || (Rank(rule.order, v) == Rank(rule.order, w) && !N.KeyLess(N.Key(w), N.Key(v)))
  }

  lemma MayPrecedeIff(rule: Rule, a: Channel, b: Channel)
    ensures MayPrecede(rule, a, b) <==> !ChannelLess(rule, b, a)
  {
    var v, w := a.Field(rule.selector), b.Field(rule.selector);
    if v.Some? && w.Some? {
      OrderDecides(rule, b, a);
    } else if v.Some? {
      MissingFieldLast(rule, a, b);
    } else if w.Some? {
      MissingFieldLast(rule, b, a);
    }
  }

  /**
   Where a channel may stand before another when grouping by `g`, by the values of the grouping field (empty
   without a selector or without the field): the smaller rank in the configured order first, and
   natural order within a rank.
   */
  predicate GroupMayPrecede(g: GroupBy, a: Channel, b: Channel) {
    var v := if g.selector.Some? && a.Field(g.selector).Some? then a.Field(g.selector).value else "";
    var w := if g.selector.Some? && b.Field(g.selector).Some? then b.Field(g.selector).value else "";
    || Rank(g.order, v) < Rank(g.order, w)
    || (Rank(g.order, v) == Rank(g.order, w) && !N.KeyLess(N.Key(w), N.Key(v)))
  }

  lemma GroupMayPrecedeIff(rule: Rule, a: Channel, b: Channel)
    requires rule.groupBy.Some?
    ensures GroupMayPrecede(rule.groupBy.value, a, b) <==> !GroupLess(rule, GroupKey(rule, b), GroupKey(rule, a))
  {
    if rule.groupBy.value.order == [] {
      RankIs([], GroupKey(rule, a));
      RankIs([], GroupKey(rule, b));
    }
  }

  lemma GroupsStandInOrder(rule: Rule, cells: seq<Channel>, hs: seq<Handle>)
    requires InRange(cells, hs) && rule.groupBy.Some? && GroupsOrdered(rule, cells, hs)
    ensures forall i, j | 0 <= i < j < |hs| :: GroupMayPrecede(rule.groupBy.value, cells[hs[i]], cells[hs[j]])
  {
    forall i, j | 0 <= i < j < |hs| ensures GroupMayPrecede(rule.groupBy.value, cells[hs[i]], cells[hs[j]]) {
      GroupMayPrecedeIff(rule, cells[hs[i]], cells[hs[j]]);
    }
  }

  /**
   `SortProcessor.Apply`: the channels are unchanged, the new order is a permutation of the old one, and it
   is sorted by the comparator, or, when grouping, group by group. Within a group, and everywhere
   when not grouping, every channel may precede those after it.
   */
  method Apply(rule: Rule, st: Store)
    requires st.Valid()
    modifies st
    ensures st.Valid() && st.cells == old(st.cells)
    ensures multiset(st.order) == multiset(old(st.order))
    ensures rule.groupBy.None? ==> Sorted(Comparator(rule, st.cells), st.order)
    ensures rule.groupBy.Some? ==>
      && Contiguous(rule, st.cells, st.order)
      && GroupsOrdered(rule, st.cells, st.order)
      && GroupsSorted(rule, st.cells, st.order)
    ensures forall i, j | 0 <= i < j < |st.order|
        && KeyAt(rule, st.cells, st.order[i]) == KeyAt(rule, st.cells, st.order[j]) ::
      MayPrecede(rule, st.cells[st.order[i]], st.cells[st.order[j]])
    ensures rule.groupBy.Some? ==> forall i, j | 0 <= i < j < |st.order| ::
      GroupMayPrecede(rule.groupBy.value, st.cells[st.order[i]], st.cells[st.order[j]])
  {
    var channels := st.order;
    if |channels| <= 1 {
      return;
    }
    var sortedChannels;
    if rule.groupBy.None? {
      ComparatorIsStrictWeak(rule, st.cells, channels);
      sortedChannels := SortSlice(channels, Comparator(rule, st.cells));
    } else {
      sortedChannels := SortGrouped(rule, st.cells, channels);
    }
    SameElements(channels, sortedChannels);
    PermutationStaysDistinct(channels, sortedChannels);
    SubRange(st.cells, channels, sortedChannels);
    GroupsInOrder(rule, st.cells, sortedChannels);
    if rule.groupBy.Some? {
      GroupsStandInOrder(rule, st.cells, sortedChannels);
    }
    st.Replace(sortedChannels);
  }

  lemma GroupsInOrder(rule: Rule, cells: seq<Channel>, hs: seq<Handle>)
    requires InRange(cells, hs)
    requires Sorted(Comparator(rule, cells), hs) || GroupsSorted(rule, cells, hs)
    ensures forall i, j | 0 <= i < j < |hs| && KeyAt(rule, cells, hs[i]) == KeyAt(rule, cells, hs[j]) ::
      MayPrecede(rule, cells[hs[i]], cells[hs[j]])
  {
    forall i, j | 0 <= i < j < |hs| && KeyAt(rule, cells, hs[i]) == KeyAt(rule, cells, hs[j])
      ensures MayPrecede(rule, cells[hs[i]], cells[hs[j]])
    {
      MayPrecedeIff(rule, cells[hs[i]], cells[hs[j]]);
    }
  }
}
