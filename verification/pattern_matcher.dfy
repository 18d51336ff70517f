/**
 Grouping of duplicate channels and their quality priorities
 (internal/listing/m3u8/rules/playlist/pattern_matcher/pattern_matcher.go).
 Regular expressions are uninterpreted: see `ChannelStore.Pattern`.
 */
module PatternMatching {
  import opened Basics
  import opened Buckets
  import opened ChannelStore
  import opened Sorting

  /** The rule's selector and patterns, and `strings.Join(strings.Fields(_), " ")`. */
  datatype Matcher = Matcher(selector: Option<Selector>, patterns: seq<Pattern>, squeeze: string -> string)

  // ---------- Base names and groups ----------

  function Strip(patterns: seq<Pattern>, value: string): string {
    if patterns == [] then value else Strip(patterns[1..], patterns[0].strip(value))
  }

  function BaseName(m: Matcher, ch: Channel): string {
    match ch.Field(m.selector)
    case None => ""
    case Some(v) =>
      if v == "" then "" else if m.patterns == [] then v else m.squeeze(Strip(m.patterns, v))
  }

  /** The patterns are stripped in turn: `stages` are the value and what is left after each. */
  lemma {:induction false} StrippedInTurn(patterns: seq<Pattern>, value: string, stages: seq<string>)
    requires |stages| == |patterns| + 1 && stages[0] == value
    requires forall i | 0 <= i < |patterns| :: stages[i + 1] == patterns[i].strip(stages[i])
    ensures Strip(patterns, value) == stages[|patterns|]
  {
    if patterns != [] {
      StrippedInTurn(patterns[1..], stages[1], stages[1..]);
    }
  }

  /** The base name of a channel, for the stages of stripping its field. */
  lemma BaseNameIs(m: Matcher, ch: Channel, stages: seq<string>)
    requires ch.Field(m.selector).Some? ==>
      |stages| == |m.patterns| + 1 && stages[0] == ch.Field(m.selector).value
      && forall i | 0 <= i < |m.patterns| :: stages[i + 1] == m.patterns[i].strip(stages[i])
    ensures BaseName(m, ch) ==
      if ch.Field(m.selector).None? || ch.Field(m.selector).value == "" then ""
      else if m.patterns == [] then ch.Field(m.selector).value
      else m.squeeze(stages[|m.patterns|])
  {
    if ch.Field(m.selector).Some? {
      StrippedInTurn(m.patterns, ch.Field(m.selector).value, stages);
    }
  }

  /** The channel has the field, and stripping changed it. */
  predicate Changed(m: Matcher, ch: Channel) {
    ch.Field(m.selector).Some? && ch.Field(m.selector).value != BaseName(m, ch)
  }

  function BaseAt(m: Matcher, cells: seq<Channel>): Handle -> string {
    (h: Handle) => if h < |cells| then BaseName(m, cells[h]) else ""
  }

  /** The channels of `hs` with base name `k`. */
  function ClassOf(m: Matcher, cells: seq<Channel>, hs: seq<Handle>, k: string): seq<Handle> {
    Bucket(hs, BaseAt(m, cells), k)
  }

  /** A class is returned when it has two members and one changed field. */
  ghost predicate Eligible(m: Matcher, cells: seq<Channel>, hs: seq<Handle>, k: string)
    requires InRange(cells, hs)
  {
    && |ClassOf(m, cells, hs, k)| > 1
    && exists h :: h in hs && BaseName(m, cells[h]) == k && Changed(m, cells[h])
  }

  // ---------- Priorities ----------

  /** Priority of pattern `i`: the first has the highest, the last has 1. */
  function PriorityOf(patterns: seq<Pattern>, i: nat): int {
    |patterns| - i
  }

  /** Priorities collected from the first `n` patterns by one field value. */
  function Collected(patterns: seq<Pattern>, value: string, n: nat): seq<int>
    requires n <= |patterns|
  {
    if n == 0 then []
    else
      Collected(patterns, value, n - 1)
      + if patterns[n - 1].matches(value) then [PriorityOf(patterns, n - 1)] else []
  }

  /** `emptyPrio` after the first `n` patterns: that of the last one without text, else the initial 0. */
  function EmptyPriority(patterns: seq<Pattern>, n: nat): int
    requires n <= |patterns|
  {
    if n == 0 then 0
    else if patterns[n - 1].text == "" then PriorityOf(patterns, n - 1)
    else EmptyPriority(patterns, n - 1)
  }

  /** The loop of `setPriorities`: largest collected priority other than `emptyPrio`, or -1. */
  function MaxNonEmpty(prios: seq<int>, emptyPrio: int): (p: int)
    ensures p == -1 || (p in prios && p != emptyPrio)
    ensures forall q | q in prios && q != emptyPrio :: q <= p
  {
    if prios == [] then -1
    else
      var n := |prios| - 1;
      var p := MaxNonEmpty(prios[..n], emptyPrio);
      assert prios == prios[..n] + [prios[n]];
      if prios[n] != emptyPrio && prios[n] > p then prios[n] else p
  }

  /** The new priority of a channel whose field matched something; None leaves the old one. */
  function CodePriority(patterns: seq<Pattern>, field: Option<string>): Option<int> {
    if field.None? || field.value == "" then None
    else
      var prios := Collected(patterns, field.value, |patterns|);
      var emptyPrio := EmptyPriority(patterns, |patterns|);
      if prios == [] then None
      else Some(if MaxNonEmpty(prios, emptyPrio) >= 0 then MaxNonEmpty(prios, emptyPrio) else emptyPrio)
  }

  function Prioritised(m: Matcher, ch: Channel): Channel {
    match CodePriority(m.patterns, ch.Field(m.selector))
    case None => ch
    case Some(p) => ch.(priority := p)
  }

  // ---------- What the two passes compute ----------

  /** Index of the first pattern that has text and matches; the length when there is none. */
  function FirstWithText(patterns: seq<Pattern>, value: string): (i: nat)
    ensures i <= |patterns|
    ensures i < |patterns| ==> patterns[i].text != "" && patterns[i].matches(value)
    ensures forall j | 0 <= j < i :: patterns[j].text == "" || !patterns[j].matches(value)
  {
    if patterns == [] then 0
    else if patterns[0].text != "" && patterns[0].matches(value) then 0
    else 1 + FirstWithText(patterns[1..], value)
  }

  /** Index of the last pattern without text; the length when there is none. */
  function LastBlank(patterns: seq<Pattern>): (i: nat)
    ensures i <= |patterns|
    ensures i < |patterns| ==> patterns[i].text == ""
    ensures forall j | 0 <= j < |patterns| && patterns[j].text == "" :: j <= i < |patterns|
  {
    if patterns == [] then 0
    else
      var n := |patterns| - 1;
      if patterns[n].text == "" then n
      else if LastBlank(patterns[..n]) < n then LastBlank(patterns[..n]) else |patterns|
  }

  /** The documented meaning: the first pattern with text that matches, else the empty pattern. */
  function IntendedPriority(patterns: seq<Pattern>, value: string): int {
    if FirstWithText(patterns, value) < |patterns| then PriorityOf(patterns, FirstWithText(patterns, value))
    else PriorityOf(patterns, LastBlank(patterns))
  }

  /** An empty regular expression matches every string. */
  ghost predicate BlankMatchesAll(patterns: seq<Pattern>) {
    forall i, v | 0 <= i < |patterns| && patterns[i].text == "" :: patterns[i].matches(v)
  }

  lemma {:induction false} CollectedMembers(patterns: seq<Pattern>, value: string, n: nat)
    requires n <= |patterns|
    ensures forall p :: p in Collected(patterns, value, n) <==>
      0 <= |patterns| - p < n && patterns[|patterns| - p].matches(value)
  {
    if n > 0 {
      CollectedMembers(patterns, value, n - 1);
    }
  }

  lemma {:induction false} EmptyPriorityIsLastBlank(patterns: seq<Pattern>, n: nat, b: nat)
    requires n <= |patterns| && b == LastBlank(patterns)
    requires forall j | n <= j < |patterns| :: patterns[j].text != ""
    ensures EmptyPriority(patterns, n) == if b < |patterns| then PriorityOf(patterns, b) else 0
  {
    if n > 0 && patterns[n - 1].text != "" {
      EmptyPriorityIsLastBlank(patterns, n - 1, b);
    }
  }

  /** A pattern without text, other than the last such, that comes before the first match with text. */
  ghost predicate EarlierBlank(patterns: seq<Pattern>, value: string) {
    exists j :: 0 <= j < LastBlank(patterns) && patterns[j].text == "" && j < FirstWithText(patterns, value)
  }

  /** What is collected, and what `emptyPrio` is, in terms of pattern indices. */
  lemma CollectedByIndex(patterns: seq<Pattern>, value: string)
    ensures forall i :: |patterns| - i in Collected(patterns, value, |patterns|) <==>
      0 <= i < |patterns| && patterns[i].matches(value)
    ensures EmptyPriority(patterns, |patterns|) ==
      if LastBlank(patterns) < |patterns| then PriorityOf(patterns, LastBlank(patterns)) else 0
    ensures forall p | p in Collected(patterns, value, |patterns|) :: 0 < p <= |patterns|
  {
    CollectedMembers(patterns, value, |patterns|);
    EmptyPriorityIsLastBlank(patterns, |patterns|, LastBlank(patterns));
    forall i ensures |patterns| - i in Collected(patterns, value, |patterns|) <==>
      0 <= i < |patterns| && patterns[i].matches(value)
    {
      var p := |patterns| - i;
      assert |patterns| - p == i;
    }
  }

  lemma IndexCollected(patterns: seq<Pattern>, value: string, i: nat)
    requires i < |patterns|
    ensures |patterns| - i in Collected(patterns, value, |patterns|) <==> patterns[i].matches(value)
    ensures |patterns| - i == EmptyPriority(patterns, |patterns|) <==> i == LastBlank(patterns)
  {
    CollectedByIndex(patterns, value);
  }

  /** Some match is not the last empty pattern: the first such is chosen. */
  lemma ChosenByMaximum(patterns: seq<Pattern>, value: string, prios: seq<int>, best: int) returns (k: nat)
    requires prios == Collected(patterns, value, |patterns|)
    requires best == MaxNonEmpty(prios, EmptyPriority(patterns, |patterns|)) && best >= 0
    ensures k == |patterns| - best < |patterns| && patterns[k].matches(value) && k != LastBlank(patterns)
    ensures forall i | 0 <= i < k && i != LastBlank(patterns) :: !patterns[i].matches(value)
  {
    CollectedByIndex(patterns, value);
    assert best in prios;
    k := |patterns| - best;
    IndexCollected(patterns, value, k);
    forall i | 0 <= i < k && i != LastBlank(patterns) ensures !patterns[i].matches(value) {
      IndexCollected(patterns, value, i);
    }
  }

  /** The index the two passes choose: the first match that is not the last empty pattern, else that one. */
  lemma ChosenIndex(patterns: seq<Pattern>, value: string) returns (k: nat)
    requires value != "" && exists i :: 0 <= i < |patterns| && patterns[i].matches(value)
    ensures k < |patterns| && patterns[k].matches(value)
    ensures CodePriority(patterns, Some(value)) == Some(PriorityOf(patterns, k))
    ensures k != LastBlank(patterns) ==>
      forall i | 0 <= i < k && i != LastBlank(patterns) :: !patterns[i].matches(value)
    ensures k == LastBlank(patterns) ==> forall i | 0 <= i < |patterns| && i != k :: !patterns[i].matches(value)
  {
    var prios := Collected(patterns, value, |patterns|);
    var best := MaxNonEmpty(prios, EmptyPriority(patterns, |patterns|));
    var some :| 0 <= some < |patterns| && patterns[some].matches(value);
    IndexCollected(patterns, value, some);
    if best >= 0 {
      k := ChosenByMaximum(patterns, value, prios, best);
    } else {
      k := some;
      forall i | 0 <= i < |patterns| && i != k ensures !patterns[i].matches(value) {
        IndexCollected(patterns, value, i);
      }
    }
  }

  /**
   For every field value that matches some pattern, the two passes give the documented priority exactly
   when no earlier one of several empty patterns precedes the first match with text.
   */
  lemma TwoPassesAsIntended(patterns: seq<Pattern>, value: string)
    requires value != "" && BlankMatchesAll(patterns)
    requires exists i :: 0 <= i < |patterns| && patterns[i].matches(value)
    ensures CodePriority(patterns, Some(value)).Some?
    ensures CodePriority(patterns, Some(value)).value == IntendedPriority(patterns, value) <==>
      !EarlierBlank(patterns, value)
  {
    var f, b := FirstWithText(patterns, value), LastBlank(patterns);
    var k := ChosenIndex(patterns, value);
    if EarlierBlank(patterns, value) {
      var j :| 0 <= j < b && patterns[j].text == "" && j < f;
      assert patterns[j].matches(value);
      assert k <= j;
    } else if k != b {
      // k has text: an empty pattern before b would be an earlier one, or lie behind f.
      assert patterns[k].text == "" ==> k < b && f <= k;
      assert f < |patterns| ==> k <= f;
    } else if f < |patterns| {
      assert f == k;
    }
  }

  /** With at most one empty pattern the two passes always give the documented priority. */
  lemma OneBlankIsEnough(patterns: seq<Pattern>, value: string)
    requires value != "" && BlankMatchesAll(patterns)
    requires exists i :: 0 <= i < |patterns| && patterns[i].matches(value)
    requires forall i, j | 0 <= i < j < |patterns| :: patterns[i].text != "" || patterns[j].text != ""
    ensures CodePriority(patterns, Some(value)) == Some(IntendedPriority(patterns, value))
  {
    TwoPassesAsIntended(patterns, value);
  }

  /** With two empty patterns before "HD", the first of them outranks the match on "HD". */
  lemma TwoBlanksMisplace()
    ensures
      var blank := Pattern("", (_: string) => true, (s: string) => s);
      var hd := Pattern("HD", (_: string) => true, (s: string) => s);
      CodePriority([blank, blank, hd], Some("CNN HD")) == Some(3)
      && IntendedPriority([blank, blank, hd], "CNN HD") == 1
  {
    var blank := Pattern("", (_: string) => true, (s: string) => s);
    var hd := Pattern("HD", (_: string) => true, (s: string) => s);
    var ps := [blank, blank, hd];
    CollectedMembers(ps, "CNN HD", 3);
    assert EmptyPriority(ps, 3) == EmptyPriority(ps, 2) == 2;
    assert 3 in Collected(ps, "CNN HD", 3);
    assert FirstWithText(ps, "CNN HD") == 2;
  }

  // ---------- GroupChannels ----------

  /** Exactly the eligible classes are returned, each in some order of non-increasing priority. */
  ghost predicate IsGrouping(m: Matcher, before: seq<Channel>, after: seq<Channel>, hs: seq<Handle>,
                             groups: map<string, seq<Handle>>)
    requires InRange(before, hs) && |after| == |before|
  {
    && (forall k :: k in groups <==> Eligible(m, before, hs, k))
    && (forall k <- groups :: multiset(groups[k]) == multiset(ClassOf(m, before, hs, k)))
    && (forall k <- groups :: NonIncreasing(after, groups[k]))
    && (forall h | 0 <= h < |before| ::
          after[h] == if h in hs && Eligible(m, before, hs, BaseName(m, before[h]))
                      then Prioritised(m, before[h]) else before[h])
  }

  ghost predicate NonIncreasing(cells: seq<Channel>, group: seq<Handle>) {
    && InRange(cells, group)
    && forall i, j | 0 <= i < j < |group| :: cells[group[i]].priority >= cells[group[j]].priority
  }

  /** Membership in a group is having its base name, so groups are disjoint. */
  lemma GroupMembers(m: Matcher, before: seq<Channel>, after: seq<Channel>, hs: seq<Handle>,
                     groups: map<string, seq<Handle>>)
    requires InRange(before, hs) && Distinct(hs) && |after| == |before| && IsGrouping(m, before, after, hs, groups)
    ensures forall k, h | k in groups :: h in groups[k] <==> h in hs && BaseName(m, before[h]) == k
    ensures forall k <- groups :: Distinct(groups[k]) && |groups[k]| > 1 && InRange(before, groups[k])
  {
    forall k | k in groups
      ensures forall h :: h in groups[k] <==> h in hs && BaseName(m, before[h]) == k
      ensures Distinct(groups[k]) && |groups[k]| > 1
    {
      var class_ := ClassOf(m, before, hs, k);
      BucketMembers(hs, BaseAt(m, before), k);
      BucketDistinct(hs, BaseAt(m, before), k);
      SameElements(class_, groups[k]);
      PermutationStaysDistinct(class_, groups[k]);
    }
  }

  lemma TwoMembers(xs: seq<Handle>)
    requires Distinct(xs)
    ensures |xs| > 1 <==> exists a, b | a in xs && b in xs :: a != b
  {
    if |xs| > 1 {
      assert xs[0] in xs && xs[1] in xs && xs[0] != xs[1];
    }
  }

  ghost predicate TwoReduceTo(m: Matcher, cells: seq<Channel>, hs: seq<Handle>, k: string)
    requires InRange(cells, hs)
  {
    exists a, b | a in hs && b in hs :: a != b && BaseName(m, cells[a]) == k == BaseName(m, cells[b])
  }

  lemma ClassHasTwo(m: Matcher, cells: seq<Channel>, hs: seq<Handle>, k: string)
    requires InRange(cells, hs) && Distinct(hs)
    ensures |ClassOf(m, cells, hs, k)| > 1 <==> TwoReduceTo(m, cells, hs, k)
  {
    BucketMembers(hs, BaseAt(m, cells), k);
    BucketDistinct(hs, BaseAt(m, cells), k);
    TwoMembers(ClassOf(m, cells, hs, k));
  }

  /** A name is returned exactly when two channels reduce to it, and for one of them that is not what its field says. */
  lemma GroupReturnedIff(m: Matcher, before: seq<Channel>, after: seq<Channel>, hs: seq<Handle>,
                         groups: map<string, seq<Handle>>, k: string)
    requires InRange(before, hs) && Distinct(hs) && |after| == |before| && IsGrouping(m, before, after, hs, groups)
    ensures k in groups <==>
      && TwoReduceTo(m, before, hs, k)
      && exists h | h in hs ::
           BaseName(m, before[h]) == k && before[h].Field(m.selector) != None && before[h].Field(m.selector) != Some(k)
  {
    ClassHasTwo(m, before, hs, k);
    assert k in groups <==> Eligible(m, before, hs, k);
  }

  /** The head of a returned group has the greatest priority of its class. */
  lemma HeadIsBest(m: Matcher, before: seq<Channel>, after: seq<Channel>, hs: seq<Handle>,
                   groups: map<string, seq<Handle>>, k: string, h: Handle)
    requires InRange(before, hs) && Distinct(hs) && |after| == |before| && IsGrouping(m, before, after, hs, groups)
    requires k in groups && h in hs && BaseName(m, before[h]) == k
    ensures |groups[k]| > 1 && groups[k][0] < |after| && after[groups[k][0]].priority >= after[h].priority
  {
    GroupMembers(m, before, after, hs, groups);
    assert h in groups[k];
    var i :| 0 <= i < |groups[k]| && groups[k][i] == h;
    assert groups[k][0] in groups[k];
    assert NonIncreasing(after, groups[k]);
  }

  class PatternMatcher {
    const m: Matcher
    const channels: seq<Handle>
    const store: Store
    var channelPrios: map<Handle, seq<int>>
    var emptyPrio: int

    constructor (store: Store, m: Matcher)
      ensures this.m == m && this.store == store && channels == store.order && emptyPrio == 0
    {
      this.store, this.m, channels := store, m, store.order;
      channelPrios, emptyPrio := map[], 0;
    }

    /** Collected priorities of `group` after the first `n` patterns. */
    ghost predicate Computed(cells: seq<Channel>, group: seq<Handle>, n: nat)
      reads this
      requires InRange(cells, group) && n <= |m.patterns|
    {
      && (forall h :: h in channelPrios <==> h in group && HasPrios(cells[h], n))
      && (forall h <- channelPrios :: channelPrios[h] == Collected(m.patterns, cells[h].Field(m.selector).value, n))
    }

    predicate HasPrios(ch: Channel, n: nat)
      requires n <= |m.patterns|
    {
      var field := ch.Field(m.selector);
      field.Some? && field.value != "" && Collected(m.patterns, field.value, n) != []
    }

    /** One round of the outer loop of `computePriorities`: append the rank of pattern `n` where it matches. */
    method CollectPattern(group: seq<Handle>, n: nat, priority: int)
      requires InRange(store.cells, group) && Distinct(group) && n < |m.patterns|
      requires Computed(store.cells, group, n) && priority == PriorityOf(m.patterns, n)
      modifies this`channelPrios
      ensures Computed(store.cells, group, n + 1)
    {
      var pattern := m.patterns[n];
      ghost var before := channelPrios;
      for i := 0 to |group|
        invariant forall h | h !in group[..i] :: h in channelPrios <==> h in before
        invariant forall h | h !in group[..i] && h in before :: channelPrios[h] == before[h]
        invariant forall h | h in group[..i] :: h in channelPrios <==> HasPrios(store.cells[h], n + 1)
        invariant forall h | h in group[..i] && h in channelPrios ::
          channelPrios[h] == Collected(m.patterns, store.cells[h].Field(m.selector).value, n + 1)
      {
        var ch := group[i];
        assert ch in group && ch !in group[..i];
        assert group[..i + 1] == group[..i] + [ch];
        var field := store.cells[ch].Field(m.selector);
        if field.Some? && field.value != "" {
          if pattern.matches(field.value) {
            channelPrios := channelPrios[ch := (if ch in channelPrios then channelPrios[ch] else []) + [priority]];
          }
        }
      }
      assert group[..|group|] == group;
    }

    method ComputePriorities(group: seq<Handle>)
      requires InRange(store.cells, group) && Distinct(group)
      requires emptyPrio == 0 || emptyPrio == EmptyPriority(m.patterns, |m.patterns|)
      modifies this
      ensures Computed(store.cells, group, |m.patterns|)
      ensures emptyPrio == EmptyPriority(m.patterns, |m.patterns|)
    {
      channelPrios := map[];
      var priority := |m.patterns|;
      ghost var initial := emptyPrio;
      for n := 0 to |m.patterns|
        invariant priority == PriorityOf(m.patterns, n)
        invariant Computed(store.cells, group, n)
        invariant emptyPrio == EmptyPriority(m.patterns, n)
          || (emptyPrio == initial && EmptyPriority(m.patterns, n) == 0)
      {
        if m.patterns[n].text == "" {
          emptyPrio := priority;
        }
        CollectPattern(group, n, priority);
        priority := priority - 1;
      }
    }

    /** Inner loop of `setPriorities`. */
    method LargestNonEmpty(prios: seq<int>) returns (maxNonEmpty: int)
      ensures maxNonEmpty == MaxNonEmpty(prios, emptyPrio)
    {
      maxNonEmpty := -1;
      for j := 0 to |prios|
        invariant maxNonEmpty == MaxNonEmpty(prios[..j], emptyPrio)
      {
        assert prios[..j + 1][..j] == prios[..j];
        if prios[j] != emptyPrio && prios[j] > maxNonEmpty {
          maxNonEmpty := prios[j];
        }
      }
      assert prios[..|prios|] == prios;
    }

    /** Visits the collected channels in map order. */
    method SetPriorities(group: seq<Handle>)
      requires InRange(store.cells, group) && Computed(store.cells, group, |m.patterns|)
      requires emptyPrio == EmptyPriority(m.patterns, |m.patterns|)
      modifies store`cells
      ensures |store.cells| == |old(store.cells)|
      ensures forall h | 0 <= h < |store.cells| ::
        store.cells[h] == if h in group then Prioritised(m, old(store.cells)[h]) else old(store.cells)[h]
    {
      ghost var before := store.cells;
      var handles := KeysOf(channelPrios);
      for i := 0 to |handles|
        invariant |store.cells| == |before|
        invariant forall h | 0 <= h < |before| ::
          store.cells[h] == if h in handles[..i] then Prioritised(m, before[h]) else before[h]
      {
        var ch := handles[i];
        assert ch in handles && ch !in handles[..i] && ch in group;
        assert handles[..i + 1] == handles[..i] + [ch];
        var maxNonEmpty := LargestNonEmpty(channelPrios[ch]);
        var priority := if maxNonEmpty >= 0 then maxNonEmpty else emptyPrio;
        store.cells := store.cells[ch := store.cells[ch].(priority := priority)];
      }
      assert handles[..|handles|] == handles;
    }

    method MatchGroup(group: seq<Handle>)
      requires InRange(store.cells, group) && Distinct(group)
      requires emptyPrio == 0 || emptyPrio == EmptyPriority(m.patterns, |m.patterns|)
      modifies this, store`cells
      ensures emptyPrio == 0 || emptyPrio == EmptyPriority(m.patterns, |m.patterns|)
      ensures |store.cells| == |old(store.cells)|
      ensures forall h | 0 <= h < |store.cells| ::
        store.cells[h] == if h in group then Prioritised(m, old(store.cells)[h]) else old(store.cells)[h]
    {
      if |m.patterns| == 0 {
        return;
      }
      ComputePriorities(group);
      SetPriorities(group);
    }

    /** `hasModified && len(channels) > 1`. */
    method IsDuplicateGroup(base: string, group: seq<Handle>) returns (keep: bool)
      requires InRange(store.cells, group) && forall h | h in group :: BaseName(m, store.cells[h]) == base
      ensures keep <==> |group| > 1 && exists h :: h in group && Changed(m, store.cells[h])
    {
      var hasModified := false;
      for i := 0 to |group|
        invariant !hasModified
        invariant forall h | h in group[..i] :: !Changed(m, store.cells[h])
      {
        assert group[i] in group && group[..i + 1] == group[..i] + [group[i]];
        var field := store.cells[group[i]].Field(m.selector);
        if field.None? {
          continue;
        }
        if base != field.value {
          hasModified := true;
          break;
        }
      }
      assert !hasModified ==> group[..|group|] == group;
      keep := hasModified && |group| > 1;
    }

    /** The first two loops of `GroupChannels`. */
    method EligibleGroups() returns (groups: map<string, seq<Handle>>)
      requires InRange(store.cells, channels)
      ensures forall k :: k in groups <==> Eligible(m, store.cells, channels, k)
      ensures forall k <- groups :: groups[k] == ClassOf(m, store.cells, channels, k)
    {
      var key := BaseAt(m, store.cells);
      var allGroups := Gather(channels, key);
      var names := KeysOf(allGroups);
      groups := map[];
      for n := 0 to |names|
        invariant forall k :: k in groups <==> k in names[..n] && Eligible(m, store.cells, channels, k)
        invariant forall k <- groups :: groups[k] == ClassOf(m, store.cells, channels, k)
      {
        var k := names[n];
        assert k in names && names[..n + 1] == names[..n] + [k];
        BucketMembers(channels, key, k);
        SubRange(store.cells, channels, allGroups[k]);
        var keep := IsDuplicateGroup(k, allGroups[k]);
        if keep {
          groups := groups[k := allGroups[k]];
        }
      }
      assert names[..|names|] == names;
    }

    method SortByPriority(group: seq<Handle>) returns (sortedGroup: seq<Handle>)
      requires InRange(store.cells, group)
      ensures multiset(sortedGroup) == multiset(group) && NonIncreasing(store.cells, sortedGroup)
    {
      var cells := store.cells;
      var less := (a: Handle, b: Handle) => a < |cells| && b < |cells| && cells[a].priority > cells[b].priority;
      sortedGroup := SortSlice(group, less);
      SameElements(group, sortedGroup);
      SubRange(cells, group, sortedGroup);
      forall i, j | 0 <= i < j < |sortedGroup|
        ensures cells[sortedGroup[i]].priority >= cells[sortedGroup[j]].priority
      {
        assert sortedGroup[i] in sortedGroup && sortedGroup[j] in sortedGroup;
        assert !less(sortedGroup[j], sortedGroup[i]);
      }
    }

    /** `group` is the class of `k` in non-increasing priority. */
    ghost predicate Arranged(before: seq<Channel>, after: seq<Channel>, k: string, group: seq<Handle>)
      requires InRange(before, channels) && |after| == |before|
    {
      multiset(group) == multiset(ClassOf(m, before, channels, k)) && NonIncreasing(after, group)
    }

    ghost predicate AllArranged(before: seq<Channel>, after: seq<Channel>, groups: map<string, seq<Handle>>,
                                names: seq<string>)
      requires InRange(before, channels) && |after| == |before|
    {
      && (forall l | l in names :: l in groups)
      && forall l {:trigger Arranged(before, after, l, groups[l])} | l in names ::
           Arranged(before, after, l, groups[l])
    }

    /** The classes named in `names` have their priorities. */
    ghost predicate PrioritisedFor(before: seq<Channel>, after: seq<Channel>, names: seq<string>)
      requires InRange(before, channels) && |after| == |before|
    {
      forall h | 0 <= h < |before| ::
        after[h] == if h in channels && BaseName(m, before[h]) in names then Prioritised(m, before[h]) else before[h]
    }

    /** One round of the last loop of `GroupChannels`. */
    method ArrangeGroup(ghost before: seq<Channel>, groups: map<string, seq<Handle>>, ghost names: seq<string>,
                        k: string)
      returns (group: seq<Handle>)
      requires InRange(before, channels) && Distinct(channels) && |store.cells| == |before|
      requires k !in names && k in groups && groups[k] == ClassOf(m, before, channels, k)
      requires PrioritisedFor(before, store.cells, names)
      requires AllArranged(before, store.cells, groups, names)
      requires emptyPrio == 0 || emptyPrio == EmptyPriority(m.patterns, |m.patterns|)
      modifies this, store`cells
      ensures emptyPrio == 0 || emptyPrio == EmptyPriority(m.patterns, |m.patterns|)
      ensures |store.cells| == |before| && PrioritisedFor(before, store.cells, names + [k])
      ensures AllArranged(before, store.cells, groups, names) && Arranged(before, store.cells, k, group)
    {
      BucketMembers(channels, BaseAt(m, before), k);
      BucketDistinct(channels, BaseAt(m, before), k);
      ghost var mid := store.cells;
      SubRange(before, channels, groups[k]);
      MatchGroup(groups[k]);
      OtherGroupsKept(before, mid, store.cells, groups, names, k);
      group := SortByPriority(groups[k]);
    }

    /** The last loop of `GroupChannels`. */
    method ArrangeGroups(eligible: map<string, seq<Handle>>) returns (groups: map<string, seq<Handle>>)
      requires InRange(store.cells, channels) && Distinct(channels)
      requires forall k <- eligible :: eligible[k] == ClassOf(m, store.cells, channels, k)
      requires emptyPrio == 0 || emptyPrio == EmptyPriority(m.patterns, |m.patterns|)
      modifies this, store`cells
      ensures |store.cells| == |old(store.cells)| && groups.Keys == eligible.Keys
      ensures forall k <- groups :: Arranged(old(store.cells), store.cells, k, groups[k])
      ensures forall h | 0 <= h < |store.cells| ::
        store.cells[h] == if h in channels && BaseName(m, old(store.cells)[h]) in eligible
                          then Prioritised(m, old(store.cells)[h]) else old(store.cells)[h]
    {
      ghost var before := store.cells;
      groups := eligible;
      var names := KeysOf(groups);
      for n := 0 to |names|
        invariant emptyPrio == 0 || emptyPrio == EmptyPriority(m.patterns, |m.patterns|)
        invariant |store.cells| == |before| && groups.Keys == eligible.Keys
        invariant forall k | k in names && k !in names[..n] :: groups[k] == ClassOf(m, before, channels, k)
        invariant AllArranged(before, store.cells, groups, names[..n])
        invariant PrioritisedFor(before, store.cells, names[..n])
      {
        var k := names[n];
        assert k in names && k !in names[..n] && names[..n + 1] == names[..n] + [k];
        var group := ArrangeGroup(before, groups, names[..n], k);
        assert forall l | l in names[..n] :: l in groups && l != k;
        groups := groups[k := group];
      }
      assert names[..|names|] == names;
      assert forall k :: k in names <==> k in eligible;
    }

    method GroupChannels() returns (groups: map<string, seq<Handle>>)
      requires InRange(store.cells, channels) && Distinct(channels)
      requires emptyPrio == 0 || emptyPrio == EmptyPriority(m.patterns, |m.patterns|)
      modifies this, store`cells
      ensures |store.cells| == |old(store.cells)|
      ensures IsGrouping(m, old(store.cells), store.cells, channels, groups)
    {
      var eligible := EligibleGroups();
      groups := ArrangeGroups(eligible);
    }

    /** Setting the priorities of one class leaves the order of the other groups alone. */
    lemma OtherGroupsKept(before: seq<Channel>, mid: seq<Channel>, after: seq<Channel>,
                          groups: map<string, seq<Handle>>,
                          names: seq<string>, k: string)
      requires InRange(before, channels) && |before| == |mid| == |after| && k !in names
      requires AllArranged(before, mid, groups, names)
      requires forall h | 0 <= h < |mid| && h !in ClassOf(m, before, channels, k) :: after[h] == mid[h]
      ensures AllArranged(before, after, groups, names)
    {
      BucketMembers(channels, BaseAt(m, before), k);
      forall l | l in names ensures Arranged(before, after, l, groups[l]) {
        assert Arranged(before, mid, l, groups[l]);
        BucketMembers(channels, BaseAt(m, before), l);
        SameElements(groups[l], ClassOf(m, before, channels, l));
        assert NonIncreasing(mid, groups[l]);
        forall i | 0 <= i < |groups[l]| ensures after[groups[l][i]] == mid[groups[l][i]] {
          assert groups[l][i] in groups[l];
        }
      }
    }
  }
}
