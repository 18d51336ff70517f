/**
 What a duplicate rule leaves in each field of a channel
 (internal/listing/m3u8/rules/playlist/merge_duplicates.go:42-91 and
 remove_duplicates.go:40-89), field by field.
 */
module FinalValues {
  import opened Basics
  import opened Buckets
  import opened ChannelStore
  import opened PatternMatching
  import opened DuplicateRules

  /** Entry of a map, if there is one. */
  function Entry(m: map<string, string>, key: string): Option<string> {
    if key in m then Some(m[key]) else None
  }

  /**
   `after` is `before` with the selected field set to `v`, and with the tvg-id `id` if there is one; a
   selected tvg-id is set to `v` nevertheless. Hidden flag, priority and playlist never change.
   */
  ghost predicate IsSet(selector: Option<Selector>, v: string, parseUrl: string -> Option<string>, id: Option<string>,
                        before: Channel, after: Channel)
  {
    && after.name == (if selector == Some(ByName) then v else before.name)
    && after.uri == (if selector == Some(ByUrl) then parseUrl(v) else before.uri)
    && (forall key :: Entry(after.attrs, key) ==
          if selector == Some(ByAttr(key)) then Some(v)
          else if key == "tvg-id" && id.Some? then id
          else Entry(before.attrs, key))
    && (forall key :: Entry(after.tags, key) ==
          if selector == Some(ByTag(key)) then Some(v) else Entry(before.tags, key))
    && after.hidden == before.hidden && after.priority == before.priority && after.playlist == before.playlist
  }

  /** Nothing changes but the tvg-id, if there is an `id`. */
  ghost predicate OnlyIdSet(id: Option<string>, before: Channel, after: Channel) {
    && after == before.(attrs := after.attrs)
    && forall key :: Entry(after.attrs, key) == if key == "tvg-id" && id.Some? then id else Entry(before.attrs, key)
  }

  lemma SetFinalSets(rule: Rule, selector: Option<Selector>, v: string, ch: Channel)
    requires SetFinal(rule, selector, v, ch).Some?
    ensures IsSet(selector, v, rule.parseUrl, None, ch, SetFinal(rule, selector, v, ch).value)
    ensures SetFinal(rule, selector, v, ch).value.removed == ch.removed
    ensures selector == Some(ByUrl) ==> rule.parseUrl(v).Some?
  {
  }

  lemma UnifySets(best: Channel, ch: Channel)
    ensures OnlyIdSet(Entry(best.attrs, "tvg-id"), ch, Unify(best, ch))
  {
  }

  lemma SetAfterUnify(selector: Option<Selector>, v: string, parseUrl: string -> Option<string>, id: Option<string>,
                      before: Channel, mid: Channel, after: Channel)
    requires OnlyIdSet(id, before, mid) && IsSet(selector, v, parseUrl, None, mid, after)
    ensures IsSet(selector, v, parseUrl, id, before, after)
  {
  }

  /** What a member of a group becomes, field by field. */
  ghost predicate IsOutcome(rule: Rule, base: string, best: Channel, isBest: bool, before: Channel, after: Channel) {
    match rule.kind
    case Merge =>
      var id := Entry(best.attrs, "tvg-id");
      && after.removed == before.removed
      && (match rule.finalValue
          case None => OnlyIdSet(id, before, after)
          case Some(fv) =>
            && fv.render(base, best).Some?
            && IsSet(fv.selector, fv.render(base, best).value, rule.parseUrl, id, before, after))
    case Remove =>
      if !isBest then after == before.(removed := true)
      else
        && after.removed == before.removed
        && match rule.finalValue
           case None => after == before
           case Some(fv) =>
             && fv.render(base, best).Some?
             && IsSet(fv.selector, fv.render(base, best).value, rule.parseUrl, None, before, after)
  }

  lemma OutcomeIs(rule: Rule, base: string, best: Channel, isBest: bool, ch: Channel)
    requires Outcome(rule, base, best, isBest, ch).Some?
    ensures IsOutcome(rule, base, best, isBest, ch, Outcome(rule, base, best, isBest, ch).value)
  {
    var unified := Unify(best, ch);
    UnifySets(best, ch);
    if rule.finalValue.Some? && (rule.kind.Merge? || isBest) {
      var fv := rule.finalValue.value;
      var v := fv.render(base, best).value;
      var start := if rule.kind.Merge? then unified else ch;
      SetFinalSets(rule, fv.selector, v, start);
      if rule.kind.Merge? {
        var after := SetFinal(rule, fv.selector, v, unified).value;
        SetAfterUnify(fv.selector, v, rule.parseUrl, Entry(best.attrs, "tvg-id"), ch, unified, after);
      }
    }
  }

  /** When a group fails: the text cannot be rendered, or it is to be a URL and is none. */
  lemma FailsIff(rule: Rule, base: string, best: Channel)
    ensures Fails(rule, base, best) <==>
      rule.finalValue.Some?
      && var fv := rule.finalValue.value;
         fv.render(base, best).None?
         || (fv.selector == Some(ByUrl) && rule.parseUrl(fv.render(base, best).value).None?)
  {
  }

  /**
   Channel `h` after a rule: a member of a returned group has become what the rule says, computed from the
   head as grouping left it; any other channel is as grouping left it.
   */
  ghost predicate IsLeft(rule: Rule, mid: seq<Channel>, after: seq<Channel>, groups: Groups, h: Handle)
    requires h < |mid| == |after|
  {
    && (forall k | k in groups && h in groups[k] ::
          groups[k][0] < |mid| && IsOutcome(rule, k, mid[groups[k][0]], h == groups[k][0], mid[h], after[h]))
    && ((forall k | k in groups :: h !in groups[k]) ==> after[h] == mid[h])
  }

  lemma RuleLeaves(rule: Rule, before: seq<Channel>, mid: seq<Channel>, after: seq<Channel>, hs: seq<Handle>,
                   groups: Groups, h: Handle)
    requires InRange(before, hs) && Distinct(hs) && |mid| == |before| && h < |before|
    requires IsGrouping(rule.matcher, before, mid, hs, groups) && RuleApplied(rule, before, mid, after, hs, groups)
    ensures IsLeft(rule, mid, after, groups, h)
  {
    GroupMembers(rule.matcher, before, mid, hs, groups);
    var k := BaseName(rule.matcher, before[h]);
    if h in hs && k in groups {
      var head := groups[k][0];
      assert head in groups[k] && |groups[k]| > 1;
      OutcomeIs(rule, k, mid[head], h == head, mid[h]);
    }
  }

  ghost predicate AllLeft(rule: Rule, mid: seq<Channel>, after: seq<Channel>, groups: Groups) {
    && |mid| == |after|
    && forall h {:trigger IsLeft(rule, mid, after, groups, h)} | 0 <= h < |mid| :: IsLeft(rule, mid, after, groups, h)
  }

  lemma RuleLeavesAll(rule: Rule, before: seq<Channel>, mid: seq<Channel>, after: seq<Channel>, hs: seq<Handle>,
                      groups: Groups)
    requires InRange(before, hs) && Distinct(hs) && |mid| == |before|
    requires IsGrouping(rule.matcher, before, mid, hs, groups) && RuleApplied(rule, before, mid, after, hs, groups)
    ensures AllLeft(rule, mid, after, groups)
  {
    forall h | 0 <= h < |mid| ensures IsLeft(rule, mid, after, groups, h) {
      RuleLeaves(rule, before, mid, after, hs, groups, h);
    }
  }

  /** Either rule, with what it leaves in every field of every channel. */
  method ApplyRule(rule: Rule, st: Store) returns (failed: bool, ghost mid: seq<Channel>, ghost groups: Groups)
    requires st.Valid()
    modifies st`cells
    ensures st.Valid() && |mid| == |old(st.cells)|
    ensures IsGrouping(rule.matcher, old(st.cells), mid, st.order, groups)
    ensures !failed ==> AllLeft(rule, mid, st.cells, groups)
  {
    ghost var before := st.cells;
    failed, mid, groups := Apply(rule, st);
    if !failed {
      RuleLeavesAll(rule, before, mid, st.cells, st.order, groups);
    }
  }

  /** A channel that was set by a selector is read by it: setting and looking up name the same field. */
  lemma SetThenField(rule: Rule, selector: Selector, v: string, ch: Channel)
    requires SetFinal(rule, Some(selector), v, ch).Some? && !selector.Unknown?
    ensures SetFinal(rule, Some(selector), v, ch).value.Field(Some(selector))
         == if selector.ByUrl? then rule.parseUrl(v) else Some(v)
  {
  }
}
