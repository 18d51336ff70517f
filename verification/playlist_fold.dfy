/**
 What the final pass computes, in closed form (internal/listing/m3u8/processor.go:39-70,
 101-122): which channel survives for each id, the order of its fallback list, and
 that no stream is lost or duplicated.
 */
module PlaylistFold {
  import opened Basics
  import opened Buckets
  import opened ChannelStore
  import opened PlaylistProcessor

  /** Proxying the channel leaves its id as it is. */
  predicate KeepsId(links: Links, ch: Channel) {
    ch.playlist.proxied && TVG_ID in ch.attrs ==> ProxyValue(links, ch, ch.attrs[TVG_ID]) == Some(ch.attrs[TVG_ID])
  }

  /** No live channel has an id that proxying changes; this holds in particular where no id is a URL. */
  ghost predicate IdsAreKept(links: Links, cells: seq<Channel>, hs: seq<Handle>)
    requires InRange(cells, hs)
  {
    forall i | 0 <= i < |hs| && !cells[hs[i]].removed :: KeepsId(links, cells[hs[i]])
  }

  /** The channels that matter for an id: its first live channel, and the later live ones that have a URI. */
  function Members(cells: seq<Channel>, hs: seq<Handle>, id: string): (ms: seq<Handle>)
    requires InRange(cells, hs)
    ensures InRange(cells, ms)
  {
    if hs == [] then []
    else
      var n := |hs| - 1;
      var before := Members(cells, hs[..n], id);
      var ch := cells[hs[n]];
      if !ch.removed && IdOf(ch) == Some(id) && (before == [] || ch.uri.Some?) then before + [hs[n]] else before
  }

  /** Strictly greater priority than everything before it. */
  ghost predicate IsRecord(cells: seq<Channel>, ms: seq<Handle>, i: nat)
    requires InRange(cells, ms) && i < |ms|
  {
    forall j | 0 <= j < i :: cells[ms[j]].priority < cells[ms[i]].priority
  }

  /** Position of the earliest channel of greatest priority. */
  ghost function Best(cells: seq<Channel>, ms: seq<Handle>): (b: nat)
    requires InRange(cells, ms) && ms != []
    ensures b < |ms| && IsRecord(cells, ms, b)
    ensures forall j | 0 <= j < |ms| :: cells[ms[j]].priority <= cells[ms[b]].priority
  {
    if |ms| == 1 then 0
    else
      var n := |ms| - 1;
      var b := Best(cells, ms[..n]);
      if cells[ms[n]].priority > cells[ms[..n][b]].priority then n else b
  }

  /** Streams of the records, in store order. */
  ghost function Records(cells: seq<Channel>, ms: seq<Handle>): seq<Stream>
    requires InRange(cells, ms)
  {
    if ms == [] then []
    else
      var n := |ms| - 1;
      Records(cells, ms[..n]) + if IsRecord(cells, ms, n) then Own(cells[ms[n]]) else []
  }

  /** Streams of the other channels, in store order. */
  ghost function Others(cells: seq<Channel>, ms: seq<Handle>): seq<Stream>
    requires InRange(cells, ms)
  {
    if ms == [] then []
    else
      var n := |ms| - 1;
      Others(cells, ms[..n]) + if IsRecord(cells, ms, n) then [] else Own(cells[ms[n]])
  }

  function Reverse<T>(xs: seq<T>): seq<T> {
    if xs == [] then [] else [xs[|xs| - 1]] + Reverse(xs[..|xs| - 1])
  }

  /** The fallback list of an id: its records from the best down, then all others in store order. */
  ghost function FallbackList(cells: seq<Channel>, ms: seq<Handle>): seq<Stream>
    requires InRange(cells, ms)
  {
    Reverse(Records(cells, ms)) + Others(cells, ms)
  }

  lemma ReverseSnoc<T>(xs: seq<T>, x: T)
    ensures Reverse(xs + [x]) == [x] + Reverse(xs)
  {
    assert (xs + [x])[..|xs|] == xs;
  }

  lemma BestGrows(cells: seq<Channel>, ms: seq<Handle>, h: Handle)
    requires InRange(cells, ms) && ms != [] && h < |cells|
    ensures InRange(cells, ms + [h])
    ensures IsRecord(cells, ms + [h], |ms|) <==> cells[h].priority > cells[ms[Best(cells, ms)]].priority
    ensures (ms + [h])[Best(cells, ms + [h])] ==
      if cells[h].priority > cells[ms[Best(cells, ms)]].priority then h else ms[Best(cells, ms)]
  {
    var ms', b := ms + [h], Best(cells, ms);
    assert ms'[..|ms|] == ms && ms'[b] == ms[b] && ms'[|ms|] == h;
    if cells[h].priority > cells[ms[b]].priority {
      forall j | 0 <= j < |ms| ensures cells[ms'[j]].priority < cells[h].priority {
        assert cells[ms[j]].priority <= cells[ms[b]].priority;
      }
    }
  }

  lemma ListsGrow(cells: seq<Channel>, ms: seq<Handle>, h: Handle)
    requires InRange(cells, ms) && h < |cells|
    ensures InRange(cells, ms + [h])
    ensures IsRecord(cells, ms + [h], |ms|) ==>
      Records(cells, ms + [h]) == Records(cells, ms) + Own(cells[h]) && Others(cells, ms + [h]) == Others(cells, ms)
    ensures !IsRecord(cells, ms + [h], |ms|) ==>
      Records(cells, ms + [h]) == Records(cells, ms) && Others(cells, ms + [h]) == Others(cells, ms) + Own(cells[h])
  {
    assert (ms + [h])[..|ms|] == ms;
  }

  lemma FrontOrBack(records: seq<Stream>, others: seq<Stream>, s: Stream)
    ensures Reverse(records + [s]) + others == [s] + (Reverse(records) + others)
    ensures Reverse(records) + (others + [s]) == (Reverse(records) + others) + [s]
  {
    ReverseSnoc(records, s);
  }

  /** One more member goes to the front or to the back, by its priority alone. */
  lemma FallbackGrows(cells: seq<Channel>, ms: seq<Handle>, h: Handle)
    requires InRange(cells, ms) && h < |cells| && cells[h].uri.Some?
    ensures InRange(cells, ms + [h])
    ensures FallbackList(cells, ms + [h]) ==
      if IsRecord(cells, ms + [h], |ms|) then [StreamOf(cells[h])] + FallbackList(cells, ms)
      else FallbackList(cells, ms) + [StreamOf(cells[h])]
  {
    ListsGrow(cells, ms, h);
    FrontOrBack(Records(cells, ms), Others(cells, ms), StreamOf(cells[h]));
  }

  lemma SingleFallback(cells: seq<Channel>, h: Handle)
    requires h < |cells|
    ensures InRange(cells, [h]) && FallbackList(cells, [h]) == Own(cells[h]) && [h][Best(cells, [h])] == h
  {
    ListsGrow(cells, [], h);
    assert [] + [h] == [h];
    ReverseOne(Own(cells[h]));
  }

  lemma ReverseOne<T>(xs: seq<T>)
    requires |xs| <= 1
    ensures Reverse(xs) == xs
  {
  }

  // ---------- The closed form ----------

  /** Only attributes change, and no id does. */
  ghost predicate SameIds(cells: seq<Channel>, f: Fold) {
    && |f.cells| == |cells|
    && forall h | 0 <= h < |cells| ::
         f.cells[h] == cells[h].(attrs := f.cells[h].attrs) && IdOf(f.cells[h]) == IdOf(cells[h])
  }

  /** The survivor of `id` and its fallback list. */
  ghost predicate FoldedId(cells: seq<Channel>, ms: seq<Handle>, f: Fold, id: string)
    requires InRange(cells, ms)
  {
    if ms == [] then id !in f.byId
    else
      && id in f.byId && f.byId[id] == ms[Best(cells, ms)]
      && f.byId[id] in f.streams && f.streams[f.byId[id]] == FallbackList(cells, ms)
  }

  ghost predicate FoldedIds(cells: seq<Channel>, hs: seq<Handle>, f: Fold)
    requires InRange(cells, hs)
  {
    forall id :: FoldedId(cells, Members(cells, hs, id), f, id)
  }

  /** A channel with an id has streams only as the survivor of that id; one without keeps its own. */
  ghost predicate Survivor(cells: seq<Channel>, hs: seq<Handle>, f: Fold, h: Handle)
    requires h < |cells|
  {
    match IdOf(cells[h])
    case Some(id) => h in f.streams <==> id in f.byId && f.byId[id] == h
    case None =>
      && (h in f.streams <==> h in hs && !cells[h].removed)
      && (h in f.streams ==> f.streams[h] == Own(cells[h]))
  }

  ghost predicate Survivors(cells: seq<Channel>, hs: seq<Handle>, f: Fold) {
    forall h | 0 <= h < |cells| :: Survivor(cells, hs, f, h)
  }

  ghost predicate Shaped(cells: seq<Channel>, hs: seq<Handle>, f: Fold)
    requires InRange(cells, hs)
  {
    SameIds(cells, f) && FoldedIds(cells, hs, f) && Survivors(cells, hs, f)
  }

  lemma MembersSnoc(cells: seq<Channel>, hs: seq<Handle>, h: Handle, id: string)
    requires InRange(cells, hs) && h < |cells|
    ensures InRange(cells, hs + [h])
    ensures Members(cells, hs + [h], id) ==
      var before := Members(cells, hs, id);
      if !cells[h].removed && IdOf(cells[h]) == Some(id) && (before == [] || cells[h].uri.Some?)
      then before + [h] else before
  {
    assert (hs + [h])[..|hs|] == hs;
  }

  /** A duplicate leaves every other id alone. */
  lemma AddStreamKeepsOthers(f: Fold, id: string, h: Handle, x: string)
    requires Tracked(f) && id in f.byId && h < |f.cells| && h !in f.streams && IdOf(f.cells[h]) == Some(id) && x != id
    ensures
      var f' := AddStream(f, f.byId[id], h);
      && (x in f'.byId <==> x in f.byId)
      && (x in f.byId ==>
            f'.byId[x] == f.byId[x] && f.byId[x] in f'.streams && f'.streams[f.byId[x]] == f.streams[f.byId[x]])
  {
    assert x in f.byId ==> IdOf(f.cells[f.byId[x]]) == Some(x);
  }

  lemma DuplicateFolds(cells: seq<Channel>, hs: seq<Handle>, f: Fold, h: Handle, id: string, x: string)
    requires InRange(cells, hs) && h < |cells| && h !in f.streams && SameIds(cells, f) && Tracked(f)
    requires !cells[h].removed && IdOf(cells[h]) == Some(id) && id in f.byId
    requires FoldedId(cells, Members(cells, hs, x), f, x)
    ensures InRange(cells, hs + [h]) && FoldedId(cells, Members(cells, hs + [h], x), AddStream(f, f.byId[id], h), x)
  {
    MembersSnoc(cells, hs, h, x);
    if x != id {
      AddStreamKeepsOthers(f, id, h, x);
    } else if cells[h].uri.Some? {
      BestGrows(cells, Members(cells, hs, x), h);
      FallbackGrows(cells, Members(cells, hs, x), h);
      AddStreamToOwn(cells, Members(cells, hs, x), f, h, x);
    }
  }

  /** What a duplicate does to the survivor and list of its id. */
  lemma AddStreamToOwn(cells: seq<Channel>, ms: seq<Handle>, f: Fold, h: Handle, id: string)
    requires InRange(cells, ms) && InRange(cells, ms + [h]) && ms != [] && h < |cells| && cells[h].uri.Some?
    requires SameIds(cells, f) && Tracked(f) && h !in f.streams && IdOf(cells[h]) == Some(id)
    requires FoldedId(cells, ms, f, id)
    requires IsRecord(cells, ms + [h], |ms|) <==> cells[h].priority > cells[ms[Best(cells, ms)]].priority
    requires (ms + [h])[Best(cells, ms + [h])] == if IsRecord(cells, ms + [h], |ms|) then h else ms[Best(cells, ms)]
    requires FallbackList(cells, ms + [h]) ==
      if IsRecord(cells, ms + [h], |ms|) then [StreamOf(cells[h])] + FallbackList(cells, ms)
      else FallbackList(cells, ms) + [StreamOf(cells[h])]
    ensures FoldedId(cells, ms + [h], AddStream(f, f.byId[id], h), id)
  {
    assert StreamOf(f.cells[h]) == StreamOf(cells[h]) && IdOf(f.cells[h]) == Some(id);
    assert f.cells[f.byId[id]].priority == cells[f.byId[id]].priority && f.cells[h].priority == cells[h].priority;
    AddStreamEffect(f, id, h);
  }

  lemma AddStreamEffect(f: Fold, id: string, h: Handle)
    requires Tracked(f) && id in f.byId && h < |f.cells| && h !in f.streams && IdOf(f.cells[h]) == Some(id)
        && f.cells[h].uri.Some?
    ensures
      var r, f' := f.byId[id], AddStream(f, f.byId[id], h);
      var better := f.cells[h].priority > f.cells[r].priority;
      var s := if better then h else r;
      && id in f'.byId && f'.byId[id] == s && s in f'.streams
      && f'.streams[s] ==
         if better then [StreamOf(f.cells[h])] + f.streams[r] else f.streams[r] + [StreamOf(f.cells[h])]
  {
  }

  lemma DuplicateSurvivors(cells: seq<Channel>, hs: seq<Handle>, f: Fold, h: Handle, id: string)
    requires InRange(cells, hs) && h < |cells| && h !in hs && Seen(f, cells, hs) && Shaped(cells, hs, f)
    requires !cells[h].removed && IdOf(cells[h]) == Some(id) && id in f.byId
    ensures Survivors(cells, hs + [h], AddStream(f, f.byId[id], h))
  {
    var f' := AddStream(f, f.byId[id], h);
    assert IdOf(cells[f.byId[id]]) == Some(id);
    forall g | 0 <= g < |cells| ensures Survivor(cells, hs + [h], f', g) {
      assert Survivor(cells, hs, f, g);
    }
  }

  lemma FreshFolds(cells: seq<Channel>, hs: seq<Handle>, f: Fold, f': Fold, h: Handle, x: string)
    requires InRange(cells, hs) && h < |cells| && h !in f.streams
    requires !cells[h].removed && (IdOf(cells[h]).Some? ==> IdOf(cells[h]).value !in f.byId)
    requires f'.byId == (if IdOf(cells[h]).Some? then f.byId[IdOf(cells[h]).value := h] else f.byId)
    requires f'.streams == f.streams[h := Own(cells[h])]
    requires FoldedId(cells, Members(cells, hs, x), f, x)
    ensures InRange(cells, hs + [h]) && FoldedId(cells, Members(cells, hs + [h], x), f', x)
  {
    MembersSnoc(cells, hs, h, x);
    if IdOf(cells[h]) == Some(x) {
      assert Members(cells, hs, x) == [] && [] + [h] == [h];
      FreshOwn(cells, f', h, x);
    } else {
      FreshOther(cells, Members(cells, hs, x), f, f', h, x);
    }
  }

  lemma FreshOwn(cells: seq<Channel>, f': Fold, h: Handle, x: string)
    requires h < |cells| && x in f'.byId && f'.byId[x] == h && h in f'.streams && f'.streams[h] == Own(cells[h])
    ensures InRange(cells, [h]) && FoldedId(cells, [h], f', x)
  {
    SingleFallback(cells, h);
  }

  lemma FreshOther(cells: seq<Channel>, ms: seq<Handle>, f: Fold, f': Fold, h: Handle, x: string)
    requires InRange(cells, ms) && FoldedId(cells, ms, f, x) && h !in f.streams
    requires (x in f'.byId <==> x in f.byId) && (x in f.byId ==> f'.byId[x] == f.byId[x])
    requires forall g | g in f.streams :: g in f'.streams && f'.streams[g] == f.streams[g]
    ensures FoldedId(cells, ms, f', x)
  {
  }

  /** A channel that starts its id, or has none, leaves all ids and attributes but its own alone. */
  lemma FreshStep(links: Links, cells: seq<Channel>, f: Fold, h: Handle)
    requires Tracked(f) && SameIds(cells, f) && h < |cells| && f.cells[h] == cells[h]
    requires !cells[h].removed && (IdOf(cells[h]).Some? ==> IdOf(cells[h]).value !in f.byId)
    requires KeepsId(links, cells[h])
    requires Step(links, f, h).Some?
    ensures
      var f' := Step(links, f, h).value;
      SameIds(cells, f') && f'.byId == Track(f.byId, f'.cells[h], h) && f'.streams == f.streams[h := Own(cells[h])]
  {
  }

  /** A channel that starts its id, or has none, gets its own stream. */
  lemma FreshShaped(cells: seq<Channel>, hs: seq<Handle>, f: Fold, f': Fold, h: Handle)
    requires InRange(cells, hs) && h < |cells| && h !in hs && Seen(f, cells, hs) && Shaped(cells, hs, f)
    requires !cells[h].removed && (IdOf(cells[h]).Some? ==> IdOf(cells[h]).value !in f.byId)
    requires SameIds(cells, f') && f'.byId == Track(f.byId, f'.cells[h], h)
        && f'.streams == f.streams[h := Own(cells[h])]
    ensures InRange(cells, hs + [h]) && Shaped(cells, hs + [h], f')
  {
    MembersSnoc(cells, hs, h, "");
    forall x ensures FoldedId(cells, Members(cells, hs + [h], x), f', x) {
      assert FoldedId(cells, Members(cells, hs, x), f, x);
      FreshFolds(cells, hs, f, f', h, x);
    }
    FreshSurvivors(cells, hs, f, f', h);
  }

  lemma FreshSurvivors(cells: seq<Channel>, hs: seq<Handle>, f: Fold, f': Fold, h: Handle)
    requires InRange(cells, hs) && h < |cells| && h !in hs && Survivors(cells, hs, f)
    requires h !in f.streams && !cells[h].removed && (IdOf(cells[h]).Some? ==> IdOf(cells[h]).value !in f.byId)
    requires f'.streams == f.streams[h := Own(cells[h])]
    requires f'.byId == if IdOf(cells[h]).Some? then f.byId[IdOf(cells[h]).value := h] else f.byId
    ensures Survivors(cells, hs + [h], f')
  {
    forall g | 0 <= g < |cells| ensures Survivor(cells, hs + [h], f', g) {
      assert Survivor(cells, hs, f, g);
    }
  }

  lemma RemovedShaped(cells: seq<Channel>, hs: seq<Handle>, f: Fold, h: Handle)
    requires InRange(cells, hs) && h < |cells| && h !in hs && Shaped(cells, hs, f) && cells[h].removed
    ensures InRange(cells, hs + [h]) && Shaped(cells, hs + [h], f)
  {
    MembersSnoc(cells, hs, h, "");
    forall x ensures FoldedId(cells, Members(cells, hs + [h], x), f, x) {
      MembersSnoc(cells, hs, h, x);
      assert FoldedId(cells, Members(cells, hs, x), f, x);
    }
    forall g | 0 <= g < |cells| ensures Survivor(cells, hs + [h], f, g) {
      assert Survivor(cells, hs, f, g);
    }
  }

  lemma StepShaped(links: Links, cells: seq<Channel>, hs: seq<Handle>, f: Fold, h: Handle)
    requires InRange(cells, hs) && h < |cells| && h !in hs && Seen(f, cells, hs) && Shaped(cells, hs, f)
    requires !cells[h].removed ==> KeepsId(links, cells[h])
    requires Step(links, f, h).Some?
    ensures InRange(cells, hs + [h]) && Shaped(cells, hs + [h], Step(links, f, h).value)
  {
    assert f.cells[h] == cells[h];
    if cells[h].removed {
      RemovedShaped(cells, hs, f, h);
    } else if IdOf(cells[h]).Some? && IdOf(cells[h]).value in f.byId {
      var id := IdOf(cells[h]).value;
      forall x ensures InRange(cells, hs + [h])
          && FoldedId(cells, Members(cells, hs + [h], x), AddStream(f, f.byId[id], h), x) {
        assert FoldedId(cells, Members(cells, hs, x), f, x);
        DuplicateFolds(cells, hs, f, h, id, x);
      }
      DuplicateSurvivors(cells, hs, f, h, id);
    } else {
      FreshStep(links, cells, f, h);
      FreshShaped(cells, hs, f, Step(links, f, h).value, h);
    }
  }

  /**
   Every successful pass has the closed form: the survivor of an id is the earliest channel of greatest
   priority among its members, and its list is the records reversed, then all others in store order.
   */
  lemma {:induction false} FoldClosedForm(links: Links, cells: seq<Channel>, hs: seq<Handle>)
    requires InRange(cells, hs) && Distinct(hs) && IdsAreKept(links, cells, hs)
    requires FoldAll(links, cells, hs).Some?
    ensures Shaped(cells, hs, FoldAll(links, cells, hs).value)
  {
    if hs != [] {
      var n := |hs| - 1;
      assert hs == hs[..n] + [hs[n]] && hs[n] !in hs[..n];
      assert forall i | 0 <= i < n :: hs[..n][i] == hs[i];
      FoldClosedForm(links, cells, hs[..n]);
      StepShaped(links, cells, hs[..n], FoldAll(links, cells, hs[..n]).value, hs[n]);
    }
  }

  /** The pass fails only where a link cannot be made. */
  lemma {:induction false} NeverFails(links: Links, cells: seq<Channel>, hs: seq<Handle>)
    requires InRange(cells, hs) && Distinct(hs)
    requires forall i | 0 <= i < |hs| && cells[hs[i]].playlist.proxied :: !ProxyFails(links, cells[hs[i]])
    ensures FoldAll(links, cells, hs).Some?
  {
    if hs != [] {
      var n := |hs| - 1;
      assert hs == hs[..n] + [hs[n]] && hs[n] !in hs[..n];
      assert forall i | 0 <= i < n :: hs[..n][i] == hs[i];
      NeverFails(links, cells, hs[..n]);
      assert FoldAll(links, cells, hs[..n]).value.cells[hs[n]] == cells[hs[n]];
    }
  }

  // ---------- What the members of an id are ----------

  /** `ms` holds the first live channel of the id and exactly the later ones with a URI. */
  lemma {:induction false} MembersAre(cells: seq<Channel>, hs: seq<Handle>, id: string, h: Handle)
    requires InRange(cells, hs) && h < |cells|
    ensures h in Members(cells, hs, id) ==> h in hs && !cells[h].removed && IdOf(cells[h]) == Some(id)
    ensures h in hs && !cells[h].removed && IdOf(cells[h]) == Some(id) ==>
      Members(cells, hs, id) != [] && (cells[h].uri.Some? ==> h in Members(cells, hs, id))
  {
    if hs != [] {
      var n := |hs| - 1;
      assert hs == hs[..n] + [hs[n]];
      MembersAre(cells, hs[..n], id, h);
    }
  }

  lemma {:induction false} LaterMembersHaveUris(cells: seq<Channel>, hs: seq<Handle>, id: string)
    requires InRange(cells, hs)
    ensures forall i | 0 < i < |Members(cells, hs, id)| :: cells[Members(cells, hs, id)[i]].uri.Some?
  {
    if hs != [] {
      LaterMembersHaveUris(cells, hs[..|hs| - 1], id);
    }
  }

  lemma {:induction false} MembersAreSubsequence(cells: seq<Channel>, hs: seq<Handle>, id: string)
    requires InRange(cells, hs)
    ensures Subsequence(Members(cells, hs, id), hs)
  {
    if hs != [] {
      var n := |hs| - 1;
      var before := Members(cells, hs[..n], id);
      MembersAreSubsequence(cells, hs[..n], id);
      SubsequenceGrows(before, hs[..n], hs[n]);
      assert hs == hs[..n] + [hs[n]];
      assert Members(cells, hs, id) == before || Members(cells, hs, id) == before + [hs[n]];
    }
  }

  /** Members come in store order, and only the first may lack a URI. */
  lemma MembersInOrder(cells: seq<Channel>, hs: seq<Handle>, id: string)
    requires InRange(cells, hs)
    ensures Subsequence(Members(cells, hs, id), hs)
    ensures forall i | 0 < i < |Members(cells, hs, id)| :: cells[Members(cells, hs, id)[i]].uri.Some?
  {
    MembersAreSubsequence(cells, hs, id);
    LaterMembersHaveUris(cells, hs, id);
  }

  /** The elements of `xs` occur in `ys` in the same order. */
  predicate Subsequence<T(==)>(xs: seq<T>, ys: seq<T>) {
    if xs == [] then true
    else if ys == [] then false
    else
      var m, n := |xs| - 1, |ys| - 1;
      (xs[m] == ys[n] && Subsequence(xs[..m], ys[..n])) || Subsequence(xs, ys[..n])
  }

  lemma SubsequenceGrows<T>(xs: seq<T>, ys: seq<T>, y: T)
    requires Subsequence(xs, ys)
    ensures Subsequence(xs, ys + [y]) && Subsequence(xs + [y], ys + [y])
  {
    assert (ys + [y])[..|ys|] == ys && (xs + [y])[..|xs|] == xs;
  }

  // ---------- The head of the list ----------

  /** All but perhaps the first of the members have a URI, and at least one has. */
  predicate HaveStreams(cells: seq<Channel>, ms: seq<Handle>)
    requires InRange(cells, ms)
  {
    ms != [] && (forall i | 0 < i < |ms| :: cells[ms[i]].uri.Some?) && (|ms| > 1 || cells[ms[0]].uri.Some?)
  }

  /**
   Position of the member whose stream comes first: the survivor, or, if that has no URI, the second
   member. It depends on priorities and on which URIs there are, never on the streams themselves.
   */
  ghost function HeadPosition(cells: seq<Channel>, ms: seq<Handle>): (p: nat)
    requires InRange(cells, ms) && HaveStreams(cells, ms)
    ensures p < |ms|
  {
    if cells[ms[Best(cells, ms)]].uri.Some? || |ms| == 1 then Best(cells, ms) else 1
  }

  /** Which stream comes first, and, where the survivor has no URI, the whole list. */
  lemma HeadStream(cells: seq<Channel>, ms: seq<Handle>)
    requires InRange(cells, ms) && HaveStreams(cells, ms)
    ensures var p := HeadPosition(cells, ms);
      && cells[ms[p]].uri.Some? && FallbackList(cells, ms) != [] && FallbackList(cells, ms)[0] == StreamOf(cells[ms[p]])
    ensures cells[ms[Best(cells, ms)]].uri.None? ==>
        Best(cells, ms) == 0 && FallbackList(cells, ms) == StreamsFrom(cells, ms, 1)
  {
    var b := Best(cells, ms);
    if cells[ms[b]].uri.Some? {
      BestIsLastRecord(cells, ms);
      var records := Records(cells, ms);
      assert Reverse(records)[0] == records[|records| - 1];
    } else {
      NoRecordAfterFirst(cells, ms);
      FirstOfStreams(cells, ms);
    }
  }

  lemma {:induction false} FirstOfStreams(cells: seq<Channel>, ms: seq<Handle>)
    requires InRange(cells, ms) && |ms| > 1 && forall i | 0 < i < |ms| :: cells[ms[i]].uri.Some?
    ensures StreamsFrom(cells, ms, 1) != [] && StreamsFrom(cells, ms, 1)[0] == StreamOf(cells[ms[1]])
  {
    var n := |ms| - 1;
    if n > 1 {
      assert ms[..n][1] == ms[1];
      FirstOfStreams(cells, ms[..n]);
    } else {
      assert StreamsFrom(cells, ms[..n], 1) == [];
    }
  }

  /** No member with a URI outranks the one at position `p`. */
  ghost predicate IsTop(cells: seq<Channel>, ms: seq<Handle>, p: nat)
    requires InRange(cells, ms) && p < |ms|
  {
    forall i | 0 <= i < |ms| && cells[ms[i]].uri.Some? :: cells[ms[i]].priority <= cells[ms[p]].priority
  }

  /** The first member has a URI, or a later one outranks it, or the second is the best of the later ones. */
  ghost predicate HeadWillBeTop(cells: seq<Channel>, ms: seq<Handle>)
    requires InRange(cells, ms) && ms != []
  {
    || cells[ms[0]].uri.Some?
    || (exists i :: 0 < i < |ms| && cells[ms[i]].priority > cells[ms[0]].priority)
    || (|ms| > 1 && forall i | 0 < i < |ms| :: cells[ms[i]].priority <= cells[ms[1]].priority)
  }

  /** When the list starts with a best stream. */
  lemma HeadIsTopIff(cells: seq<Channel>, ms: seq<Handle>)
    requires InRange(cells, ms) && HaveStreams(cells, ms)
    ensures IsTop(cells, ms, HeadPosition(cells, ms)) <==> HeadWillBeTop(cells, ms)
  {
    var b := Best(cells, ms);
    if cells[ms[b]].uri.None? {
      assert b == 0;
    } else if b > 0 {
      assert IsRecord(cells, ms, b);
      assert cells[ms[0]].priority < cells[ms[b]].priority;
    }
  }

  /** Streams of the members from position `from` on. */
  function StreamsFrom(cells: seq<Channel>, ms: seq<Handle>, from: nat): seq<Stream>
    requires InRange(cells, ms) && from <= |ms|
  {
    if |ms| == from then [] else StreamsFrom(cells, ms[..|ms| - 1], from) + Own(cells[ms[|ms| - 1]])
  }

  lemma {:induction false} BestIsLastRecord(cells: seq<Channel>, ms: seq<Handle>)
    requires InRange(cells, ms) && ms != [] && cells[ms[Best(cells, ms)]].uri.Some?
    ensures Records(cells, ms) != []
    ensures Records(cells, ms)[|Records(cells, ms)| - 1] == StreamOf(cells[ms[Best(cells, ms)]])
  {
    var n := |ms| - 1;
    if Best(cells, ms) < n {
      assert !IsRecord(cells, ms, n) by {
        assert cells[ms[n]].priority <= cells[ms[Best(cells, ms)]].priority;
      }
      BestIsUnique(cells, ms, n);
      BestIsLastRecord(cells, ms[..n]);
    }
  }

  lemma BestIsUnique(cells: seq<Channel>, ms: seq<Handle>, n: nat)
    requires InRange(cells, ms) && ms != [] && Best(cells, ms) < n <= |ms|
    ensures Best(cells, ms[..n]) == Best(cells, ms)
  {
    var a, b := Best(cells, ms[..n]), Best(cells, ms);
    assert ms[..n][a] == ms[a] && ms[..n][b] == ms[b];
    assert IsRecord(cells, ms, b);
  }

  lemma {:induction false} NoRecordAfterFirst(cells: seq<Channel>, ms: seq<Handle>)
    requires InRange(cells, ms) && ms != [] && cells[ms[Best(cells, ms)]].uri.None?
    requires forall i | 0 < i < |ms| :: cells[ms[i]].uri.Some?
    ensures Best(cells, ms) == 0
    ensures FallbackList(cells, ms) == StreamsFrom(cells, ms, 1)
  {
    var n := |ms| - 1;
    if n == 0 {
      SingleFallback(cells, ms[0]);
      assert ms == [ms[0]];
    } else {
      BestIsUnique(cells, ms, n);
      assert ms[..n][0] == ms[0];
      NoRecordAfterFirst(cells, ms[..n]);
      LastIsNoRecord(cells, ms, n);
    }
  }

  lemma LastIsNoRecord(cells: seq<Channel>, ms: seq<Handle>, n: nat)
    requires InRange(cells, ms) && 0 < n == |ms| - 1 && cells[ms[n]].uri.Some?
    requires cells[ms[n]].priority <= cells[ms[0]].priority
    ensures FallbackList(cells, ms) == FallbackList(cells, ms[..n]) + [StreamOf(cells[ms[n]])]
  {
    assert ms[..n] + [ms[n]] == ms;
    assert !IsRecord(cells, ms, n);
    FallbackGrows(cells, ms[..n], ms[n]);
  }

  lemma LiveUriMeansStreams(cells: seq<Channel>, hs: seq<Handle>, id: string)
    requires InRange(cells, hs)
    requires exists h :: h in hs && !cells[h].removed && IdOf(cells[h]) == Some(id) && cells[h].uri.Some?
    ensures HaveStreams(cells, Members(cells, hs, id))
  {
    var h :| h in hs && !cells[h].removed && IdOf(cells[h]) == Some(id) && cells[h].uri.Some?;
    MembersAre(cells, hs, id, h);
    LaterMembersHaveUris(cells, hs, id);
    OneHasStreams(cells, Members(cells, hs, id), h);
  }

  lemma OneHasStreams(cells: seq<Channel>, ms: seq<Handle>, h: Handle)
    requires InRange(cells, ms) && h in ms && cells[h].uri.Some?
    requires forall i | 0 < i < |ms| :: cells[ms[i]].uri.Some?
    ensures HaveStreams(cells, ms)
  {
    assert |ms| == 1 ==> ms[0] == h;
  }

  /** The list of an id after the whole pass. */
  lemma ListOfId(links: Links, cells: seq<Channel>, hs: seq<Handle>, id: string)
    requires InRange(cells, hs) && Distinct(hs) && IdsAreKept(links, cells, hs) && FoldAll(links, cells, hs).Some?
    requires Members(cells, hs, id) != []
    ensures FoldedId(cells, Members(cells, hs, id), FoldAll(links, cells, hs).value, id)
  {
    FoldClosedForm(links, cells, hs);
    FoldedOne(cells, hs, FoldAll(links, cells, hs).value, id);
  }

  lemma FoldedOne(cells: seq<Channel>, hs: seq<Handle>, f: Fold, id: string)
    requires InRange(cells, hs) && FoldedIds(cells, hs, f)
    ensures FoldedId(cells, Members(cells, hs, id), f, id)
  {
  }

  lemma HeadOfMembers(cells: seq<Channel>, ms: seq<Handle>, f: Fold, id: string)
    requires InRange(cells, ms) && HaveStreams(cells, ms) && FoldedId(cells, ms, f, id)
    ensures id in f.byId && f.byId[id] in f.streams && f.streams[f.byId[id]] != []
    ensures f.streams[f.byId[id]][0] == StreamOf(cells[ms[HeadPosition(cells, ms)]])
    ensures IsTop(cells, ms, HeadPosition(cells, ms)) <==> HeadWillBeTop(cells, ms)
  {
    HeadStream(cells, ms);
    HeadIsTopIff(cells, ms);
  }

  /** Which stream comes first in the list of an id after the whole pass, and when that is a best one. */
  lemma HeadOfId(links: Links, cells: seq<Channel>, hs: seq<Handle>, id: string)
    requires InRange(cells, hs) && Distinct(hs) && IdsAreKept(links, cells, hs) && FoldAll(links, cells, hs).Some?
    requires exists h :: h in hs && !cells[h].removed && IdOf(cells[h]) == Some(id) && cells[h].uri.Some?
    ensures var f := FoldAll(links, cells, hs).value; var ms := Members(cells, hs, id);
      && HaveStreams(cells, ms) && id in f.byId && f.byId[id] in f.streams
      && f.streams[f.byId[id]] != [] && f.streams[f.byId[id]][0] == StreamOf(cells[ms[HeadPosition(cells, ms)]])
      && (IsTop(cells, ms, HeadPosition(cells, ms)) <==> HeadWillBeTop(cells, ms))
  {
    LiveUriMeansStreams(cells, hs, id);
    ListOfId(links, cells, hs, id);
    HeadOfMembers(cells, Members(cells, hs, id), FoldAll(links, cells, hs).value, id);
  }

  /**
   Where every live channel has a URI, each list starts with the survivor's stream, and nothing of
   the id outranks it.
   */
  lemma UrisMakeTheHeadBest(links: Links, cells: seq<Channel>, hs: seq<Handle>, id: string, h: Handle)
    requires InRange(cells, hs) && Distinct(hs) && IdsAreKept(links, cells, hs) && FoldAll(links, cells, hs).Some?
    requires forall g | g in hs && !cells[g].removed :: cells[g].uri.Some?
    requires h in hs && !cells[h].removed && IdOf(cells[h]) == Some(id)
    ensures var f := FoldAll(links, cells, hs).value;
      && id in f.byId && f.byId[id] in f.streams && f.byId[id] in hs && cells[f.byId[id]].uri.Some?
      && f.streams[f.byId[id]] != [] && f.streams[f.byId[id]][0] == StreamOf(cells[f.byId[id]])
      && cells[h].priority <= cells[f.byId[id]].priority
  {
    var f, ms := FoldAll(links, cells, hs).value, Members(cells, hs, id);
    HeadOfId(links, cells, hs, id);
    FoldClosedForm(links, cells, hs);
    assert FoldedId(cells, ms, f, id);
    MembersAre(cells, hs, id, f.byId[id]);
    MembersAre(cells, hs, id, h);
    var i :| 0 <= i < |ms| && ms[i] == h;
  }

  // ---------- Conservation ----------

  /** All fallback lists, one after the other in store order. */
  function Gathered(hs: seq<Handle>, streams: Fallbacks): seq<Stream> {
    if hs == [] then []
    else Gathered(hs[..|hs| - 1], streams) + if hs[|hs| - 1] in streams then streams[hs[|hs| - 1]] else []
  }

  /** One stream per live channel with a URI. */
  function AllOwn(cells: seq<Channel>, hs: seq<Handle>): seq<Stream>
    requires InRange(cells, hs)
  {
    if hs == [] then []
    else
      var n := |hs| - 1;
      AllOwn(cells, hs[..n]) + if cells[hs[n]].removed then [] else Own(cells[hs[n]])
  }

  lemma {:induction false} GatheredAgree(hs: seq<Handle>, a: Fallbacks, b: Fallbacks)
    requires forall h | h in hs :: (h in a <==> h in b) && (h in a ==> a[h] == b[h])
    ensures Gathered(hs, a) == Gathered(hs, b)
  {
    if hs != [] {
      GatheredAgree(hs[..|hs| - 1], a, b);
    }
  }

  /** Appending to one list adds what was appended. */
  lemma {:induction false} GatheredAppend(hs: seq<Handle>, a: Fallbacks, b: Fallbacks, e: Handle, more: seq<Stream>)
    requires Distinct(hs) && e in hs && e in a && e in b && b[e] == a[e] + more
    requires forall h | h in hs && h != e :: (h in a <==> h in b) && (h in a ==> a[h] == b[h])
    ensures multiset(Gathered(hs, b)) == multiset(Gathered(hs, a)) + multiset(more)
  {
    var n := |hs| - 1;
    assert hs == hs[..n] + [hs[n]];
    if hs[n] == e {
      GatheredAgree(hs[..n], a, b);
    } else {
      GatheredAppend(hs[..n], a, b, e, more);
    }
  }

  /** Dropping one list takes away what it held. */
  lemma {:induction false} GatheredDrop(hs: seq<Handle>, a: Fallbacks, b: Fallbacks, e: Handle)
    requires Distinct(hs) && e in hs && e in a && e !in b
    requires forall h | h in hs && h != e :: (h in a <==> h in b) && (h in a ==> a[h] == b[h])
    ensures multiset(Gathered(hs, a)) == multiset(Gathered(hs, b)) + multiset(a[e])
  {
    var n := |hs| - 1;
    assert hs == hs[..n] + [hs[n]];
    if hs[n] == e {
      GatheredAgree(hs[..n], a, b);
    } else {
      GatheredDrop(hs[..n], a, b, e);
    }
  }

  lemma GatheredSnoc(hs: seq<Handle>, h: Handle, streams: Fallbacks)
    ensures Gathered(hs + [h], streams) == Gathered(hs, streams) + if h in streams then streams[h] else []
  {
    assert (hs + [h])[..|hs|] == hs;
  }

  lemma AddStreamConserves(hs: seq<Handle>, f: Fold, e: Handle, h: Handle)
    requires Distinct(hs) && e in hs && h !in hs && e < |f.cells| && h < |f.cells| && e in f.streams && h !in f.streams
    ensures multiset(Gathered(hs + [h], AddStream(f, e, h).streams))
         == multiset(Gathered(hs, f.streams)) + multiset(Own(f.cells[h]))
  {
    var f' := AddStream(f, e, h);
    GatheredSnoc(hs, h, f'.streams);
    if f.cells[h].uri.Some? {
      var s := StreamOf(f.cells[h]);
      if f.cells[h].priority > f.cells[e].priority {
        GatheredDrop(hs, f.streams, f'.streams, e);
        assert f'.streams[h] == [s] + f.streams[e];
      } else {
        GatheredAppend(hs, f.streams, f'.streams, e, [s]);
      }
    }
  }

  lemma FreshConserves(hs: seq<Handle>, a: Fallbacks, h: Handle, own: seq<Stream>)
    requires h !in hs && h !in a
    ensures multiset(Gathered(hs + [h], a[h := own])) == multiset(Gathered(hs, a)) + multiset(own)
  {
    GatheredSnoc(hs, h, a[h := own]);
    GatheredAgree(hs, a, a[h := own]);
  }

  lemma StepConserves(links: Links, cells: seq<Channel>, hs: seq<Handle>, f: Fold, h: Handle)
    requires InRange(cells, hs) && Distinct(hs) && h < |cells| && h !in hs && Seen(f, cells, hs)
        && Step(links, f, h).Some?
    ensures multiset(Gathered(hs + [h], Step(links, f, h).value.streams))
         == multiset(Gathered(hs, f.streams)) + if cells[h].removed then multiset{} else multiset(Own(cells[h]))
  {
    assert f.cells[h] == cells[h];
    if cells[h].removed {
      GatheredSnoc(hs, h, f.streams);
    } else if IdOf(cells[h]).Some? && IdOf(cells[h]).value in f.byId {
      AddStreamConserves(hs, f, f.byId[IdOf(cells[h]).value], h);
    } else {
      FreshConserves(hs, f.streams, h, Own(cells[h]));
    }
  }

  /** No stream is lost, invented or duplicated: the lists together hold one stream per live channel with a URI. */
  lemma {:induction false} StreamsConserved(links: Links, cells: seq<Channel>, hs: seq<Handle>)
    requires InRange(cells, hs) && Distinct(hs) && FoldAll(links, cells, hs).Some?
    ensures multiset(Gathered(hs, FoldAll(links, cells, hs).value.streams)) == multiset(AllOwn(cells, hs))
  {
    if hs != [] {
      var n := |hs| - 1;
      assert hs == hs[..n] + [hs[n]] && hs[n] !in hs[..n];
      StreamsConserved(links, cells, hs[..n]);
      StepConserves(links, cells, hs[..n], FoldAll(links, cells, hs[..n]).value, hs[n]);
    }
  }

  // ---------- The result ----------

  lemma {:induction false} CollectMembers(hs: seq<Handle>, streams: Fallbacks)
    ensures forall h :: h in Collect(hs, streams) <==> h in hs && h in streams
  {
    if hs != [] {
      CollectMembers(hs[..|hs| - 1], streams);
    }
  }

  lemma {:induction false} CollectSubsequence(hs: seq<Handle>, streams: Fallbacks)
    ensures Subsequence(Collect(hs, streams), hs)
  {
    if hs != [] {
      var n := |hs| - 1;
      assert hs == hs[..n] + [hs[n]];
      CollectSubsequence(hs[..n], streams);
      SubsequenceGrows(Collect(hs[..n], streams), hs[..n], hs[n]);
      assert Collect(hs[..n], streams) + [] == Collect(hs[..n], streams);
    }
  }

  lemma {:induction false} CollectGathers(hs: seq<Handle>, streams: Fallbacks)
    ensures Gathered(Collect(hs, streams), streams) == Gathered(hs, streams)
  {
    if hs != [] {
      var n := |hs| - 1;
      CollectGathers(hs[..n], streams);
      assert Collect(hs[..n], streams) + [] == Collect(hs[..n], streams);
      GatheredSnoc(Collect(hs[..n], streams), hs[n], streams);
    }
  }

  lemma CollectIs(hs: seq<Handle>, streams: Fallbacks)
    ensures forall h :: h in Collect(hs, streams) <==> h in hs && h in streams
    ensures Subsequence(Collect(hs, streams), hs)
    ensures Gathered(Collect(hs, streams), streams) == Gathered(hs, streams)
  {
    CollectMembers(hs, streams);
    CollectSubsequence(hs, streams);
    CollectGathers(hs, streams);
  }

  lemma {:induction false} CollectDistinct(hs: seq<Handle>, streams: Fallbacks)
    requires Distinct(hs)
    ensures Distinct(Collect(hs, streams))
  {
    if hs != [] {
      var n := |hs| - 1;
      CollectDistinct(hs[..n], streams);
      CollectMembers(hs[..n], streams);
    }
  }

  /**
   The result is a subsequence of the store with pairwise different ids; every id of a live channel is
   there exactly once; and the result's lists hold one stream per live channel with a URI.
   */
  lemma ResultShape(links: Links, cells: seq<Channel>, hs: seq<Handle>)
    requires InRange(cells, hs) && Distinct(hs) && IdsAreKept(links, cells, hs) && FoldAll(links, cells, hs).Some?
    ensures var streams := FoldAll(links, cells, hs).value.streams; var result := Collect(hs, streams);
      && Subsequence(result, hs) && InRange(cells, result)
      && (forall i, j | 0 <= i < j < |result| && IdOf(cells[result[i]]).Some? ::
           IdOf(cells[result[i]]) != IdOf(cells[result[j]]))
      && (forall h | h in hs && !cells[h].removed && IdOf(cells[h]).Some? ::
            exists r :: r in result && r < |cells| && IdOf(cells[r]) == IdOf(cells[h]))
      && multiset(Gathered(result, streams)) == multiset(AllOwn(cells, hs))
  {
    var f := FoldAll(links, cells, hs).value;
    var result := Collect(hs, f.streams);
    FoldClosedForm(links, cells, hs);
    StreamsConserved(links, cells, hs);
    CollectIs(hs, f.streams);
    CollectDistinct(hs, f.streams);
    SubRange(cells, hs, result);
    forall i, j | 0 <= i < j < |result| && IdOf(cells[result[i]]).Some?
      ensures IdOf(cells[result[i]]) != IdOf(cells[result[j]])
    {
      assert result[i] in result && result[j] in result;
      assert Survivor(cells, hs, f, result[i]) && Survivor(cells, hs, f, result[j]);
    }
    forall h | h in hs && !cells[h].removed && IdOf(cells[h]).Some?
      ensures exists r :: r in result && r < |cells| && IdOf(cells[r]) == IdOf(cells[h])
    {
      var id := IdOf(cells[h]).value;
      var ms := Members(cells, hs, id);
      MembersAre(cells, hs, id, h);
      assert FoldedId(cells, ms, f, id);
      var r := f.byId[id];
      MembersAre(cells, hs, id, r);
      assert r in result;
    }
  }

  // ---------- Streams and URIs ----------

  lemma {:induction false} OwnStreamsAre(cells: seq<Channel>, hs: seq<Handle>, t: Stream)
    requires InRange(cells, hs) && t in AllOwn(cells, hs)
    ensures exists h :: h in hs && h < |cells| && !cells[h].removed && cells[h].uri == Some(t.url)
                        && cells[h].playlist.name == t.provider && cells[h].hidden == t.hidden
  {
    var n := |hs| - 1;
    if t in AllOwn(cells, hs[..n]) {
      OwnStreamsAre(cells, hs[..n], t);
    } else {
      assert hs[n] in hs;
    }
  }

  lemma {:induction false} Listed(hs: seq<Handle>, streams: Fallbacks, h: Handle, t: Stream)
    requires h in hs && h in streams && t in streams[h]
    ensures t in Gathered(hs, streams)
  {
    var n := |hs| - 1;
    if hs[n] != h {
      Listed(hs[..n], streams, h, t);
    }
  }

  /** Every stream of a fallback list is that of a live channel: its playlist, its URI, its hidden flag. */
  lemma ListedStreamsAre(links: Links, cells: seq<Channel>, hs: seq<Handle>, r: Handle, t: Stream)
    requires InRange(cells, hs) && Distinct(hs) && FoldAll(links, cells, hs).Some? && r in hs
    requires r in FoldAll(links, cells, hs).value.streams && t in FoldAll(links, cells, hs).value.streams[r]
    ensures exists h :: h in hs && h < |cells| && !cells[h].removed && cells[h].uri == Some(t.url)
                        && cells[h].playlist.name == t.provider && cells[h].hidden == t.hidden
  {
    var streams := FoldAll(links, cells, hs).value.streams;
    StreamsConserved(links, cells, hs);
    Listed(hs, streams, r, t);
    assert t in multiset(Gathered(hs, streams));
    assert t in multiset(AllOwn(cells, hs));
    OwnStreamsAre(cells, hs, t);
  }

  /**
   The URIs of the result: a channel of a proxied playlist links to its whole fallback list under its name,
   where the list is not empty and the link can be made. Otherwise, and in all else, it stays as it was.
   */
  lemma UrisOfResult(links: Links, f: Fold, cells: seq<Channel>, h: Handle)
    requires Finished(links, f, cells, f.streams.Keys) && h < |cells|
    ensures cells[h] == f.cells[h].(uri := cells[h].uri)
    ensures cells[h].uri ==
      if h in f.streams && f.cells[h].playlist.proxied && f.streams[h] != []
         && links.streamUrl(f.cells[h].name, f.streams[h]) != None
      then links.streamUrl(f.cells[h].name, f.streams[h]) else f.cells[h].uri
  {
  }
}
