/**
 The merge and remove rules for duplicates (internal/listing/m3u8/rules/playlist,
 merge_duplicates.go and remove_duplicates.go). Templates and URL parsing are
 uninterpreted and may fail.
 */
module DuplicateRules {
  import opened Basics
  import opened Buckets
  import opened ChannelStore
  import opened PatternMatching

  /** `render` executes the template on a base name and the best channel; None is a template error. */
  datatype FinalValue = FinalValue(selector: Option<Selector>, render: (string, Channel) -> Option<string>)

  datatype Kind = Merge | Remove

  datatype Rule = Rule(
    kind: Kind,
    matcher: Matcher,
    finalValue: Option<FinalValue>,
    parseUrl: string -> Option<string>)   // url.Parse then String; None is an error

  type Groups = map<string, seq<Handle>>

  /** Writes a final value to the selected field; None is an invalid URL. */
  function SetFinal(rule: Rule, selector: Option<Selector>, value: string, ch: Channel): Option<Channel> {
    match selector
    case None => Some(ch)
    case Some(ByName) => Some(ch.(name := value))
    case Some(ByUrl) =>
      (match rule.parseUrl(value)
       case None => None
       case Some(u) => Some(ch.(uri := Some(u))))
    case Some(ByAttr(key)) => Some(ch.SetAttr(key, value))
    case Some(ByTag(key)) => Some(ch.SetTag(key, value))
    case Some(Unknown) => Some(ch)
  }

  function Finish(rule: Rule, base: string, best: Channel, ch: Channel): Option<Channel> {
    match rule.finalValue
    case None => Some(ch)
    case Some(fv) =>
      match fv.render(base, best)
      case None => None
      case Some(value) => SetFinal(rule, fv.selector, value, ch)
  }

  /** Every member takes over the id of the best one, if it has one. */
  function Unify(best: Channel, ch: Channel): Channel {
    match best.Attr(TVG_ID)
    case None => ch
    case Some(id) => ch.SetAttr(TVG_ID, id)
  }

  /** What the rule makes of member `ch` of a group with the given best channel. */
  function Outcome(rule: Rule, base: string, best: Channel, isBest: bool, ch: Channel): Option<Channel> {
    match rule.kind
    case Merge => Finish(rule, base, best, Unify(best, ch))
    case Remove => if isBest then Finish(rule, base, best, ch) else Some(ch.(removed := true))
  }

  /** Whether the rule fails on a group; it depends on its best channel only. */
  predicate Fails(rule: Rule, base: string, best: Channel) {
    Outcome(rule, base, best, true, best).None?
  }

  /** A failure is a failure of the template or of the URL, the same for every member. */
  /** Groups are disjoint, in range and free of repetitions: `owner` tells whose member a channel is. */
  ghost predicate WellGrouped(cells: seq<Channel>, groups: Groups, owner: Handle -> string) {
    forall k <- groups ::
      && InRange(cells, groups[k]) && Distinct(groups[k])
      && forall h | h in groups[k] :: owner(h) == k
  }

  /** The members of the groups named in `names` have been processed, and nothing else has changed. */
  ghost predicate Processed(rule: Rule, before: seq<Channel>, after: seq<Channel>, groups: Groups,
                            owner: Handle -> string, names: set<string>) {
    && |after| == |before|
    && forall h | 0 <= h < |before| ::
         var k := owner(h);
         if k in names && k in groups && |groups[k]| > 1 && h in groups[k] && groups[k][0] < |before|
         then Some(after[h]) == Outcome(rule, k, before[groups[k][0]], h == groups[k][0], before[h])
         else after[h] == before[h]
  }

  ghost predicate SomeGroupFails(rule: Rule, cells: seq<Channel>, groups: Groups) {
    exists k :: k in groups && |groups[k]| > 1 && groups[k][0] < |cells| && Fails(rule, k, cells[groups[k][0]])
  }

  /** What a group's loop leaves behind. */
  ghost predicate GroupProcessed(rule: Rule, before: seq<Channel>, after: seq<Channel>, k: string, group: seq<Handle>)
    requires group != [] && InRange(before, group)
  {
    && |after| == |before|
    && forall h | 0 <= h < |before| ::
         if h in group then Some(after[h]) == Outcome(rule, k, before[group[0]], h == group[0], before[h])
         else after[h] == before[h]
  }

  /** First inner loop of `processMergeGroups`: the members take over the best channel's id. */
  method UnifyIds(st: Store, group: seq<Handle>)
    requires group != [] && InRange(st.cells, group) && Distinct(group)
    modifies st`cells
    ensures |st.cells| == |old(st.cells)|
    ensures forall h | 0 <= h < |st.cells| ::
      st.cells[h] == if h in group then Unify(old(st.cells)[group[0]], old(st.cells)[h]) else old(st.cells)[h]
  {
    var best := group[0];
    ghost var before := st.cells;
    ghost var head := before[best];
    var bestTvgId := st.cells[best].Attr(TVG_ID);
    if bestTvgId.None? {
      return;
    }
    for i := 1 to |group|
      invariant |st.cells| == |before| && st.cells[best] == head
      invariant forall h | 0 <= h < |before| ::
        st.cells[h] == if h in group[..i] then Unify(head, before[h]) else before[h]
    {
      assert group[..i + 1] == group[..i] + [group[i]] && group[i] !in group[..i];
      st.cells := st.cells[group[i] := st.cells[group[i]].SetAttr(TVG_ID, bestTvgId.value)];
    }
    assert group[..|group|] == group;
  }

  /** Last inner loop of `processMergeGroups`: every member gets the final value. */
  method SetFinals(rule: Rule, st: Store, base: string, group: seq<Handle>, finalValue: string) returns (failed: bool)
    requires rule.finalValue.Some? && group != [] && InRange(st.cells, group) && Distinct(group)
    modifies st`cells
    ensures |st.cells| == |old(st.cells)|
    ensures failed <==> SetFinal(rule, rule.finalValue.value.selector, finalValue, old(st.cells)[group[0]]).None?
    ensures !failed ==> forall h | 0 <= h < |st.cells| ::
      if h in group
      then Some(st.cells[h]) == SetFinal(rule, rule.finalValue.value.selector, finalValue, old(st.cells)[h])
      else st.cells[h] == old(st.cells)[h]
  {
    ghost var before := st.cells;
    var selector := rule.finalValue.value.selector;
    for i := 0 to |group|
      invariant |st.cells| == |before|
      invariant forall h | 0 <= h < |before| ::
        if h in group[..i] then Some(st.cells[h]) == SetFinal(rule, selector, finalValue, before[h])
        else st.cells[h] == before[h]
    {
      assert group[..i + 1] == group[..i] + [group[i]] && group[i] !in group[..i];
      var ch := SetFinal(rule, selector, finalValue, st.cells[group[i]]);
      if ch.None? {
        return true;
      }
      st.cells := st.cells[group[i] := ch.value];
    }
    assert group[..|group|] == group;
    assert group[0] in group;
    failed := false;
  }

  /** Body of the loop of `processMergeGroups`. */
  method MergeGroup(rule: Rule, st: Store, base: string, group: seq<Handle>) returns (failed: bool)
    requires rule.kind.Merge? && |group| > 1 && InRange(st.cells, group) && Distinct(group)
    modifies st`cells
    ensures |st.cells| == |old(st.cells)|
    ensures failed <==> Fails(rule, base, old(st.cells)[group[0]])
    ensures !failed ==> GroupProcessed(rule, old(st.cells), st.cells, base, group)
  {
    var best := group[0];
    assert best in group;
    ghost var head := st.cells[best];
    UnifyIds(st, group);
    assert st.cells[best] == head;
    if rule.finalValue.Some? {
      var finalValue := rule.finalValue.value.render(base, st.cells[best]);
      if finalValue.None? {
        return true;
      }
      failed := SetFinals(rule, st, base, group, finalValue.value);
    } else {
      failed := false;
    }
  }

  /** Body of the loop of `processDuplicateGroups`. */
  method RemoveGroup(rule: Rule, st: Store, base: string, group: seq<Handle>) returns (failed: bool)
    requires rule.kind.Remove? && |group| > 1 && InRange(st.cells, group) && Distinct(group)
    modifies st`cells
    ensures |st.cells| == |old(st.cells)|
    ensures failed <==> Fails(rule, base, old(st.cells)[group[0]])
    ensures !failed ==> GroupProcessed(rule, old(st.cells), st.cells, base, group)
  {
    var best := group[0];
    ghost var before := st.cells;
    for i := 0 to |group|
      invariant |st.cells| == |before|
      invariant forall h | 0 <= h < |before| && h in group[..i] ::
        Some(st.cells[h]) == Outcome(rule, base, before[best], h == best, before[h])
      invariant forall h | 0 <= h < |before| && h !in group[..i] :: st.cells[h] == before[h]
      invariant i > 0 ==> !Fails(rule, base, before[best])
    {
      assert group[..i + 1] == group[..i] + [group[i]] && group[i] !in group[..i];
      var h := group[i];
      if h == best {
        if rule.finalValue.Some? {
          var finalValue := rule.finalValue.value.render(base, st.cells[h]);
          if finalValue.None? {
            return true;
          }
          var ch := SetFinal(rule, rule.finalValue.value.selector, finalValue.value, st.cells[h]);
          if ch.None? {
            return true;
          }
          st.cells := st.cells[h := ch.value];
        }
      } else {
        st.cells := st.cells[h := st.cells[h].(removed := true)];
      }
    }
    assert group[..|group|] == group;
    failed := false;
  }

  /** Processing one more group changes its members only. */
  lemma ProcessNext(rule: Rule, before: seq<Channel>, mid: seq<Channel>, after: seq<Channel>, groups: Groups,
                    owner: Handle -> string, names: set<string>, k: string)
    requires WellGrouped(before, groups, owner) && k in groups && k !in names && |groups[k]| > 1
    requires Processed(rule, before, mid, groups, owner, names)
    requires InRange(mid, groups[k]) && GroupProcessed(rule, mid, after, k, groups[k])
    ensures Processed(rule, before, after, groups, owner, names + {k})
  {
    var group := groups[k];
    assert group[0] in group && owner(group[0]) == k;
    assert mid[group[0]] == before[group[0]];
    forall h | 0 <= h < |before| && h in group ensures mid[h] == before[h] {
      assert owner(h) == k;
    }
    forall h | 0 <= h < |before| && h !in group ensures after[h] == mid[h] {
    }
  }

  /**
   `processMergeGroups` and `processDuplicateGroups`: the groups are visited in map order, which is
   arbitrary, yet whether the rule fails and, if not, every channel of the result depend on the groups alone.
   */
  method ProcessGroups(rule: Rule, st: Store, groups: Groups, ghost owner: Handle -> string) returns (failed: bool)
    requires WellGrouped(st.cells, groups, owner)
    modifies st`cells
    ensures |st.cells| == |old(st.cells)|
    ensures failed <==> SomeGroupFails(rule, old(st.cells), groups)
    ensures !failed ==> Processed(rule, old(st.cells), st.cells, groups, owner, groups.Keys)
  {
    ghost var before := st.cells;
    var names := KeysOf(groups);
    ghost var done: set<string> := {};
    for n := 0 to |names|
      invariant Processed(rule, before, st.cells, groups, owner, done)
      invariant forall k :: k in done <==> k in names[..n]
      invariant forall k | k in done && |groups[k]| > 1 :: !Fails(rule, k, before[groups[k][0]])
    {
      var k := names[n];
      assert k in names && k !in names[..n] && names[..n + 1] == names[..n] + [k];
      ghost var others := done;
      done := done + {k};
      if |groups[k]| <= 1 {
        continue;
      }
      ghost var mid := st.cells;
      assert groups[k][0] in groups[k] && mid[groups[k][0]] == before[groups[k][0]];
      if rule.kind.Merge? {
        failed := MergeGroup(rule, st, k, groups[k]);
      } else {
        failed := RemoveGroup(rule, st, k, groups[k]);
      }
      if failed {
        return;
      }
      ProcessNext(rule, before, mid, st.cells, groups, owner, others, k);
    }
    assert names[..|names|] == names;
    assert done == groups.Keys;
    failed := false;
  }

  /** `Apply` of either rule: group, set priorities, then process every group. */
  method Apply(rule: Rule, st: Store) returns (failed: bool, ghost mid: seq<Channel>, ghost groups: Groups)
    requires st.Valid()
    modifies st`cells
    ensures st.Valid() && |mid| == |old(st.cells)|
    ensures IsGrouping(rule.matcher, old(st.cells), mid, st.order, groups)
    ensures !failed ==> RuleApplied(rule, old(st.cells), mid, st.cells, st.order, groups)
    ensures failed <==> SomeGroupFails(rule, mid, groups)
  {
    ghost var before := st.cells;
    var pm := new PatternMatcher(st, rule.matcher);
    var found := pm.GroupChannels();
    mid, groups := st.cells, found;
    ghost var owner := BaseAt(rule.matcher, before);
    GroupsAreWell(rule.matcher, before, mid, st.order, groups);
    failed := ProcessGroups(rule, st, found, owner);
    if !failed {
      ProcessedIsApplied(rule, before, mid, st.cells, st.order, groups);
    }
  }

  lemma ProcessedIsApplied(rule: Rule, before: seq<Channel>, mid: seq<Channel>, after: seq<Channel>,
                           hs: seq<Handle>, groups: Groups)
    requires InRange(before, hs) && Distinct(hs) && |mid| == |before|
        && IsGrouping(rule.matcher, before, mid, hs, groups)
    requires Processed(rule, mid, after, groups, BaseAt(rule.matcher, before), groups.Keys)
    ensures RuleApplied(rule, before, mid, after, hs, groups)
  {
    GroupMembers(rule.matcher, before, mid, hs, groups);
    forall h | 0 <= h < |before| ensures BaseAt(rule.matcher, before)(h) == BaseName(rule.matcher, before[h]) {
    }
  }

  lemma GroupsAreWell(m: Matcher, before: seq<Channel>, mid: seq<Channel>, hs: seq<Handle>, groups: Groups)
    requires InRange(before, hs) && Distinct(hs) && |mid| == |before| && IsGrouping(m, before, mid, hs, groups)
    ensures WellGrouped(mid, groups, BaseAt(m, before))
    ensures forall k <- groups :: |groups[k]| > 1 && groups[k][0] < |mid|
  {
    GroupMembers(m, before, mid, hs, groups);
    forall k <- groups
      ensures InRange(mid, groups[k]) && Distinct(groups[k])
      ensures forall h | h in groups[k] :: BaseAt(m, before)(h) == k
    {
      SubRange(mid, hs, groups[k]);
    }
  }

  /** Members of a returned group get the rule's outcome; every other channel keeps what grouping left. */
  ghost predicate RuleApplied(rule: Rule, before: seq<Channel>, mid: seq<Channel>, after: seq<Channel>,
                              hs: seq<Handle>, groups: Groups)
  {
    && |before| == |mid| == |after|
    && forall h | 0 <= h < |before| ::
         var k := BaseName(rule.matcher, before[h]);
         if h in hs && k in groups && |groups[k]| > 1 && groups[k][0] < |mid|
         then Some(after[h]) == Outcome(rule, k, mid[groups[k][0]], h == groups[k][0], mid[h])
         else after[h] == mid[h]
  }
}
