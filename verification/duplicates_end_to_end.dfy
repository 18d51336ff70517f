/**
 The duplicate rules seen from the final playlist: what a merged group becomes, and what
 a de-duplicated group leaves.
 */
module DuplicatesEndToEnd {
  import opened Basics
  import opened Buckets
  import opened ChannelStore
  import opened PatternMatching
  import opened DuplicateRules
  import opened PlaylistProcessor
  import opened PlaylistFold

  /** A final value overwrites the attribute it selects and no other. */
  lemma FinalValueOnAttr(rule: Rule, selector: Option<Selector>, value: string, ch: Channel, key: string)
    requires SetFinal(rule, selector, value, ch).Some?
    ensures SetFinal(rule, selector, value, ch).value.Attr(key) ==
      if selector == Some(ByAttr(key)) then Some(value) else ch.Attr(key)
  {
  }

  /** The merge rule gives every member of a group the id of its best channel. */
  lemma MergeUnifiesIds(rule: Rule, base: string, best: Channel, ch: Channel, id: string)
    requires rule.kind.Merge? && !Fails(rule, base, best)
    requires Outcome(rule, base, best, true, best).value.Attr(TVG_ID) == Some(id)
    ensures Outcome(rule, base, best, false, ch).Some?
    ensures Outcome(rule, base, best, false, ch).value.Attr(TVG_ID) == Some(id)
  {
    var a, b := Unify(best, best), Unify(best, ch);
    assert best.Attr(TVG_ID).Some? ==> a.Attr(TVG_ID) == b.Attr(TVG_ID);
    if rule.finalValue.Some? {
      var fv := rule.finalValue.value;
      var value := fv.render(base, best).value;
      assert SetFinal(rule, fv.selector, value, b).Some?;
      FinalValueOnAttr(rule, fv.selector, value, a, TVG_ID);
      FinalValueOnAttr(rule, fv.selector, value, b, TVG_ID);
      assert best.Attr(TVG_ID).None? ==> a == best;
    }
  }

  /** The list starts with the head of the members, which is a best one under the exact condition. */
  ghost predicate StartsWithHead(cells: seq<Channel>, ms: seq<Handle>, streams: seq<Stream>)
    requires InRange(cells, ms)
  {
    && HaveStreams(cells, ms) && cells[ms[HeadPosition(cells, ms)]].uri.Some?
    && streams != [] && streams[0] == StreamOf(cells[ms[HeadPosition(cells, ms)]])
    && (IsTop(cells, ms, HeadPosition(cells, ms)) <==> HeadWillBeTop(cells, ms))
  }

  /** `survivor` is the one channel of the result with the id of a merged group. */
  ghost predicate IsMerged(after: seq<Channel>, hs: seq<Handle>, group: seq<Handle>, id: string,
                           streams: Fallbacks, survivor: Handle)
    requires InRange(after, hs)
  {
    var result := Collect(hs, streams);
    && survivor in result && survivor < |after| && IdOf(after[survivor]) == Some(id) && survivor in streams
    && (forall r | r in result && r < |after| && IdOf(after[r]) == Some(id) :: r == survivor)
    && (forall h | h in hs && !after[h].removed && IdOf(after[h]) == Some(id) && after[h].uri.Some? ::
          after[h].priority <= after[survivor].priority)
    && (forall h | h in group && h < |after| && !after[h].removed && after[h].uri.Some? ::
          StreamOf(after[h]) in streams[survivor])
    && (after[survivor].uri.Some? ==> streams[survivor] != [] && streams[survivor][0] == StreamOf(after[survivor]))
    && ((exists h :: h in hs && !after[h].removed && IdOf(after[h]) == Some(id) && after[h].uri.Some?) ==>
          StartsWithHead(after, Members(after, hs, id), streams[survivor]))
  }

  /**
   Merge end to end. Run the merge rule without error, then the final pass: if the best channel of a returned
   group has a non-empty id `id` afterwards, then one channel of the result has that id; it has the greatest
   priority of all live channels with a URI that have it, inside the group or not; and the streams of
   all live members with a URI are in its list. Its first stream is that of the survivor, if that has a
   URI, and a best one under the exact condition.
   */
  lemma MergedGroupFoldsIntoOne(rule: Rule, links: Links, before: seq<Channel>, mid: seq<Channel>, after: seq<Channel>,
                                hs: seq<Handle>, groups: Groups, k: string, id: string) returns (survivor: Handle)
    requires rule.kind.Merge? && InRange(before, hs) && Distinct(hs) && |mid| == |before|
    requires IsGrouping(rule.matcher, before, mid, hs, groups) && RuleApplied(rule, before, mid, after, hs, groups)
    requires InRange(after, hs) && IdsAreKept(links, after, hs) && FoldAll(links, after, hs).Some?
    requires HasLiveId(after, groups, k, id)
    ensures IsMerged(after, hs, groups[k], id, FoldAll(links, after, hs).value.streams, survivor)
  {
    var f := FoldAll(links, after, hs).value;
    var result := Collect(hs, f.streams);
    GroupMembers(rule.matcher, before, mid, hs, groups);
    MembersShareId(rule, before, mid, after, hs, groups, k, id);
    FoldClosedForm(links, after, hs);
    CollectIs(hs, f.streams);
    var ms := Members(after, hs, id);
    var live :| live in groups[k] && live < |after| && !after[live].removed;
    MembersAre(after, hs, id, live);
    assert FoldedId(after, ms, f, id);
    survivor := f.byId[id];
    MembersAre(after, hs, id, survivor);
    HeadOfSurvivor(links, after, hs, id);
    forall r | r in result && r < |after| && IdOf(after[r]) == Some(id) ensures r == survivor {
      assert Survivor(after, hs, f, r);
    }
    forall h | h in hs && !after[h].removed && IdOf(after[h]) == Some(id) && after[h].uri.Some?
      ensures after[h].priority <= after[survivor].priority && StreamOf(after[h]) in f.streams[survivor]
    {
      MembersAre(after, hs, id, h);
      var i :| 0 <= i < |ms| && ms[i] == h;
      MemberListed(after, ms, i);
    }
  }

  /** A returned group whose head has a non-empty id after the merge, and that has a live member. */
  ghost predicate HasLiveId(after: seq<Channel>, groups: Groups, k: string, id: string) {
    && k in groups && groups[k] != [] && groups[k][0] < |after| && IdOf(after[groups[k][0]]) == Some(id)
    && exists h :: h in groups[k] && h < |after| && !after[h].removed
  }

  /** The list of a channel starts with its own stream. */
  predicate StartsWithOwn(cells: seq<Channel>, streams: Fallbacks, h: Handle) {
    && h < |cells| && cells[h].uri.Some? && h in streams
    && streams[h] != [] && streams[h][0] == StreamOf(cells[h])
  }

  /** One merge rule and then the final pass; where every channel has a URI, the best stream comes first. */
  method MergeThenProcess(rule: Rule, st: Store, links: Links)
    returns (result: Option<seq<Handle>>, ghost merged: seq<Channel>, ghost groups: Groups, ghost streams: Fallbacks)
    requires rule.kind.Merge? && st.Valid()
    modifies st`cells
    ensures InRange(merged, st.order)
    ensures result.Some? ==> result.value == Collect(st.order, streams)
    ensures result.Some? && IdsAreKept(links, merged, st.order) ==>
      forall k, id | HasLiveId(merged, groups, k, id) ::
        exists survivor :: IsMerged(merged, st.order, groups[k], id, streams, survivor)
    ensures (forall h | 0 <= h < |old(st.cells)| :: old(st.cells)[h].uri.Some?) ==>
      result.Some? && IdsAreKept(links, merged, st.order) ==>
      forall k, id | HasLiveId(merged, groups, k, id) ::
        exists survivor :: IsMerged(merged, st.order, groups[k], id, streams, survivor)
                           && StartsWithOwn(merged, streams, survivor)
  {
    ghost var before := st.cells;
    var failed;
    ghost var mid;
    failed, mid, groups := DuplicateRules.Apply(rule, st);
    merged, streams := st.cells, map[];
    if failed {
      return None, merged, groups, streams;
    }
    var p := new Processor(links);
    result := p.Process(st);
    streams := p.channelStreams;
    if result.Some? && IdsAreKept(links, merged, st.order) {
      forall k, id | HasLiveId(merged, groups, k, id)
        ensures exists survivor :: IsMerged(merged, st.order, groups[k], id, streams, survivor)
        ensures (forall h | 0 <= h < |before| :: before[h].uri.Some?) ==>
          exists survivor :: IsMerged(merged, st.order, groups[k], id, streams, survivor)
                             && StartsWithOwn(merged, streams, survivor)
      {
        var survivor := MergedGroupFoldsIntoOne(rule, links, before, mid, merged, st.order, groups, k, id);
        if forall h | 0 <= h < |before| :: before[h].uri.Some? {
          RulesKeepUris(rule, before, mid, merged, st.order, groups);
          assert StartsWithOwn(merged, streams, survivor);
        }
      }
    }
  }

  /** The head of the survivor's list. */
  lemma HeadOfSurvivor(links: Links, cells: seq<Channel>, hs: seq<Handle>, id: string)
    requires InRange(cells, hs) && Distinct(hs) && IdsAreKept(links, cells, hs) && FoldAll(links, cells, hs).Some?
    requires exists h :: h in hs && !cells[h].removed && IdOf(cells[h]) == Some(id)
    ensures var f := FoldAll(links, cells, hs).value;
      && id in f.byId && f.byId[id] < |cells| && f.byId[id] in f.streams
      && (var streams := f.streams[f.byId[id]];
          && (cells[f.byId[id]].uri.Some? ==> streams != [] && streams[0] == StreamOf(cells[f.byId[id]]))
          && ((exists h :: h in hs && !cells[h].removed && IdOf(cells[h]) == Some(id) && cells[h].uri.Some?) ==>
                StartsWithHead(cells, Members(cells, hs, id), streams)))
  {
    var ms, f := Members(cells, hs, id), FoldAll(links, cells, hs).value;
    var live :| live in hs && !cells[live].removed && IdOf(cells[live]) == Some(id);
    MembersAre(cells, hs, id, live);
    FoldClosedForm(links, cells, hs);
    assert FoldedId(cells, ms, f, id);
    var survivor := f.byId[id];
    MembersAre(cells, hs, id, survivor);
    if h :| h in hs && !cells[h].removed && IdOf(cells[h]) == Some(id) && cells[h].uri.Some? {
      HeadOfId(links, cells, hs, id);
      HeadStream(cells, ms);
    }
  }

  lemma MembersShareId(rule: Rule, before: seq<Channel>, mid: seq<Channel>, after: seq<Channel>, hs: seq<Handle>,
                       groups: Groups, k: string, id: string)
    requires rule.kind.Merge? && InRange(before, hs) && Distinct(hs) && |mid| == |before|
    requires IsGrouping(rule.matcher, before, mid, hs, groups) && RuleApplied(rule, before, mid, after, hs, groups)
    requires k in groups && groups[k] != [] && groups[k][0] < |after| && IdOf(after[groups[k][0]]) == Some(id)
    ensures forall h | h in groups[k] :: h in hs && h < |after| && IdOf(after[h]) == Some(id)
  {
    GroupMembers(rule.matcher, before, mid, hs, groups);
    var head := groups[k][0];
    assert head in groups[k];
    forall h | h in groups[k] ensures h in hs && h < |after| && IdOf(after[h]) == Some(id) {
      assert BaseName(rule.matcher, before[h]) == k;
      MergeUnifiesIds(rule, k, mid[head], mid[h], id);
    }
  }

  /** The stream of every member is in the fallback list of its id. */
  lemma {:induction false} MemberListed(cells: seq<Channel>, ms: seq<Handle>, i: nat)
    requires InRange(cells, ms) && i < |ms| && cells[ms[i]].uri.Some?
    ensures StreamOf(cells[ms[i]]) in FallbackList(cells, ms)
  {
    var n := |ms| - 1;
    assert ms[..n] + [ms[n]] == ms;
    ListsGrow(cells, ms[..n], ms[n]);
    var records, others := Records(cells, ms[..n]), Others(cells, ms[..n]);
    if cells[ms[n]].uri.Some? {
      FallbackGrows(cells, ms[..n], ms[n]);
    } else {
      assert records + [] == records && others + [] == others;
    }
    if i < n {
      assert ms[..n][i] == ms[i];
      MemberListed(cells, ms[..n], i);
    }
  }

  lemma RemoveOutcome(rule: Rule, base: string, best: Channel, isBest: bool, ch: Channel)
    requires rule.kind.Remove? && Outcome(rule, base, best, isBest, ch).Some?
    ensures var ch' := Outcome(rule, base, best, isBest, ch).value;
      ch'.removed == (!isBest || ch.removed) && ch'.priority == ch.priority
  {
  }

  /**
   Remove-duplicates, absent errors: of every returned group all but the head end removed; the head keeps its
   removed flag and has the greatest priority of its class; channels outside the groups are untouched.
   */
  lemma RemoveKeepsOnlyHeads(rule: Rule, before: seq<Channel>, mid: seq<Channel>, after: seq<Channel>,
                             hs: seq<Handle>, groups: Groups, h: Handle)
    requires rule.kind.Remove? && InRange(before, hs) && Distinct(hs) && |mid| == |before|
    requires IsGrouping(rule.matcher, before, mid, hs, groups) && RuleApplied(rule, before, mid, after, hs, groups)
    requires h < |before|
    ensures var k := BaseName(rule.matcher, before[h]);
      if h in hs && k in groups then
        && groups[k] != [] && groups[k][0] < |after|
        && after[h].removed == (h != groups[k][0] || before[h].removed)
        && after[h].priority == mid[h].priority <= after[groups[k][0]].priority
      else after[h] == before[h]
  {
    GroupMembers(rule.matcher, before, mid, hs, groups);
    var k := BaseName(rule.matcher, before[h]);
    if h in hs && k in groups {
      HeadIsBest(rule.matcher, before, mid, hs, groups, k, h);
      var head := groups[k][0];
      assert head in groups[k] && BaseName(rule.matcher, before[head]) == k;
      RemoveOutcome(rule, k, mid[head], h == head, mid[h]);
      RemoveOutcome(rule, k, mid[head], true, mid[head]);
      assert mid[h].removed == before[h].removed;
    } else {
      assert !(h in hs && Eligible(rule.matcher, before, hs, k));
    }
  }

  // ---------- Channels without a URI ----------

  lemma OutcomeKeepsUri(rule: Rule, base: string, best: Channel, isBest: bool, ch: Channel)
    requires ch.uri.Some? && Outcome(rule, base, best, isBest, ch).Some?
    ensures Outcome(rule, base, best, isBest, ch).value.uri.Some?
  {
  }

  /** Neither rule takes a URI away. */
  lemma RulesKeepUris(rule: Rule, before: seq<Channel>, mid: seq<Channel>, after: seq<Channel>, hs: seq<Handle>,
                      groups: Groups)
    requires InRange(before, hs) && |mid| == |before| && IsGrouping(rule.matcher, before, mid, hs, groups)
    requires RuleApplied(rule, before, mid, after, hs, groups)
    requires forall h | 0 <= h < |before| :: before[h].uri.Some?
    ensures forall h | 0 <= h < |after| :: after[h].uri.Some?
  {
    forall h | 0 <= h < |after| ensures after[h].uri.Some? {
      RuleKeepsUri(rule, before, mid, after, hs, groups, h);
    }
  }

  lemma RuleKeepsUri(rule: Rule, before: seq<Channel>, mid: seq<Channel>, after: seq<Channel>, hs: seq<Handle>,
                     groups: Groups, h: Handle)
    requires InRange(before, hs) && |mid| == |before| && IsGrouping(rule.matcher, before, mid, hs, groups)
    requires RuleApplied(rule, before, mid, after, hs, groups) && h < |before| && before[h].uri.Some?
    ensures after[h].uri.Some?
  {
    assert mid[h].uri == before[h].uri;
    var k := BaseName(rule.matcher, before[h]);
    if h in hs && k in groups && |groups[k]| > 1 && groups[k][0] < |mid| {
      OutcomeKeepsUri(rule, k, mid[groups[k][0]], h == groups[k][0], mid[h]);
    }
  }

  /**
   Three channels of one id: the first has no URI and the top priority, so it survives; its list starts
   with the channel that comes next in the store, although the third is better.
   */
  lemma HeadStreamNeedNotBeBest(links: Links, pl: Playlist, id: string)
    requires !pl.proxied && id != ""
    ensures
      var bare := Channel("a", None, map[TVG_ID := id], map[], false, false, 5, pl);
      var low := Channel("b", Some("low"), map[TVG_ID := id], map[], false, false, 1, pl);
      var high := Channel("c", Some("high"), map[TVG_ID := id], map[], false, false, 3, pl);
      var r := FoldAll(links, [bare, low, high], [0, 1, 2]);
      r.Some? && r.value.streams == map[0 := [StreamOf(low), StreamOf(high)]]
  {
    var bare := Channel("a", None, map[TVG_ID := id], map[], false, false, 5, pl);
    var low := Channel("b", Some("low"), map[TVG_ID := id], map[], false, false, 1, pl);
    var high := Channel("c", Some("high"), map[TVG_ID := id], map[], false, false, 3, pl);
    var cells := [bare, low, high];
    var f1 := Fold(cells, map[id := 0], map[0 := []]);
    FirstStep(links, cells, id);
    var f2 := f1.(streams := map[0 := [StreamOf(low)]]);
    var none: seq<Stream> := [];
    assert none + [StreamOf(low)] == [StreamOf(low)];
    assert f1.streams[0 := none + [StreamOf(low)]] == f2.streams;
    assert AddStream(f1, 0, 1) == f2;
    assert Step(links, f1, 1) == Some(f2);
    var f3 := f1.(streams := map[0 := [StreamOf(low), StreamOf(high)]]);
    assert [StreamOf(low)] + [StreamOf(high)] == [StreamOf(low), StreamOf(high)];
    assert f2.streams[0 := [StreamOf(low)] + [StreamOf(high)]] == f3.streams;
    assert AddStream(f2, 0, 2) == f3;
    assert Step(links, f2, 2) == Some(f3);
    FoldThree(links, cells, f1, f2);
  }

  lemma FirstStep(links: Links, cells: seq<Channel>, id: string)
    requires |cells| == 3 && !cells[0].removed && !cells[0].playlist.proxied
    requires IdOf(cells[0]) == Some(id) && cells[0].uri.None?
    ensures Step(links, Fold(cells, map[], map[]), 0) == Some(Fold(cells, map[id := 0], map[0 := []]))
  {
    assert cells[0 := cells[0]] == cells;
  }

  lemma FoldThree(links: Links, cells: seq<Channel>, f: Fold, g: Fold)
    requires |cells| == |f.cells| == |g.cells| == 3 && Tracked(f) && Tracked(g)
    requires Step(links, Fold(cells, map[], map[]), 0) == Some(f) && Step(links, f, 1) == Some(g)
    ensures FoldAll(links, cells, [0, 1, 2]) == Step(links, g, 2)
  {
    assert [0, 1, 2][..2] == [0, 1] && [0, 1][..1] == [0] && [0][..0] == [];
    assert FoldAll(links, cells, []) == Some(Fold(cells, map[], map[]));
    assert FoldAll(links, cells, [0]) == Some(f);
    assert FoldAll(links, cells, [0, 1]) == Some(g);
  }
}
