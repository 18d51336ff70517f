/**
 Which duplicates the final pass finds once proxying may rewrite ids
 (internal/listing/m3u8/processor.go:39-88, 124-142): an id that is a URL is replaced by a
 link before it is recorded, so the channel is no longer found under the id it came with.
 */
module PlaylistIds {
  import opened Basics
  import opened Buckets
  import opened ChannelStore
  import opened PlaylistProcessor
  import opened PlaylistFold

  /** A live channel that is found under its own id: it has id `x`, and proxying keeps it. */
  predicate Starts(links: Links, ch: Channel, x: string) {
    !ch.removed && IdOf(ch) == Some(x) && KeepsId(links, ch)
  }

  /** `x` is not what proxying makes of another id of this channel. */
  predicate NotItsLink(links: Links, ch: Channel, x: string) {
    !ch.removed && ch.playlist.proxied && TVG_ID in ch.attrs && ch.attrs[TVG_ID] != x ==>
      ProxyValue(links, ch, ch.attrs[TVG_ID]) != Some(x)
  }

  ghost predicate NotALink(links: Links, cells: seq<Channel>, hs: seq<Handle>, x: string)
    requires InRange(cells, hs)
  {
    forall i | 0 <= i < |hs| :: NotItsLink(links, cells[hs[i]], x)
  }

  /** `findDuplicate` finds an entry for the channel. */
  ghost predicate IsFolded(f: Fold, ch: Channel) {
    !ch.removed && IdOf(ch).Some? && IdOf(ch).value in f.byId
  }

  /** A folded channel makes no new entry, at most it takes one over; any other live channel starts its own. */
  lemma FoldedOrKept(links: Links, f: Fold, h: Handle)
    requires Tracked(f) && h < |f.cells| && h !in f.streams && !f.cells[h].removed && Step(links, f, h).Some?
    ensures var t := Step(links, f, h).value.streams;
      if IsFolded(f, f.cells[h]) then
        var e := f.byId[IdOf(f.cells[h]).value];
        t.Keys == f.streams.Keys || t.Keys == f.streams.Keys - {e} + {h}
      else t == f.streams[h := Own(f.cells[h])]
  {
  }

  lemma IdStep(links: Links, f: Fold, h: Handle, x: string)
    requires Tracked(f) && h < |f.cells| && Step(links, f, h).Some? && NotItsLink(links, f.cells[h], x)
    ensures x in Step(links, f, h).value.byId <==> x in f.byId || Starts(links, f.cells[h], x)
  {
  }

  ghost predicate SomeStarts(links: Links, cells: seq<Channel>, hs: seq<Handle>, x: string)
    requires InRange(cells, hs)
  {
    exists i :: 0 <= i < |hs| && Starts(links, cells[hs[i]], x)
  }

  lemma SomeStartsSnoc(links: Links, cells: seq<Channel>, hs: seq<Handle>, n: nat, x: string)
    requires InRange(cells, hs) && n < |hs|
    ensures SomeStarts(links, cells, hs[..n + 1], x) <==>
        SomeStarts(links, cells, hs[..n], x) || Starts(links, cells[hs[n]], x)
  {
    if SomeStarts(links, cells, hs[..n], x) {
      var i :| 0 <= i < n && Starts(links, cells[hs[..n][i]], x);
      assert hs[..n + 1][i] == hs[i];
    }
    assert hs[..n + 1][n] == hs[n];
  }

  /** The last round of the loop. */
  lemma LastRound(links: Links, cells: seq<Channel>, hs: seq<Handle>, n: nat)
    requires InRange(cells, hs) && Distinct(hs) && n + 1 == |hs| && FoldAll(links, cells, hs).Some?
    ensures FoldAll(links, cells, hs[..n]).Some?
    ensures var f := FoldAll(links, cells, hs[..n]).value;
      && Tracked(f) && hs[n] < |f.cells| && f.cells[hs[n]] == cells[hs[n]] && hs[n] !in f.streams
      && FoldAll(links, cells, hs) == Step(links, f, hs[n])
  {
    assert hs == hs[..n] + [hs[n]] && hs[n] !in hs[..n];
  }

  /** An id that is nobody's link is recorded exactly when a live channel that keeps it has been seen. */
  lemma {:induction false} RecordedIffStarted(links: Links, cells: seq<Channel>, hs: seq<Handle>, x: string)
    requires InRange(cells, hs) && Distinct(hs) && NotALink(links, cells, hs, x) && FoldAll(links, cells, hs).Some?
    ensures x in FoldAll(links, cells, hs).value.byId <==> SomeStarts(links, cells, hs, x)
  {
    if hs != [] {
      var n := |hs| - 1;
      LastRound(links, cells, hs, n);
      RecordedIffStarted(links, cells, hs[..n], x);
      IdStep(links, FoldAll(links, cells, hs[..n]).value, hs[n], x);
      SomeStartsSnoc(links, cells, hs, n, x);
      assert hs[..n + 1] == hs;
    }
  }

  /**
   When a live channel with id `x` is folded into an earlier one: exactly when an earlier live channel
   has the id and keeps it.
   */
  lemma FoldedIffStarted(links: Links, cells: seq<Channel>, hs: seq<Handle>, h: Handle, x: string)
    requires InRange(cells, hs) && Distinct(hs) && NotALink(links, cells, hs, x) && FoldAll(links, cells, hs).Some?
    requires h < |cells| && h !in hs && !cells[h].removed && IdOf(cells[h]) == Some(x)
    ensures var f := FoldAll(links, cells, hs).value;
      && f.cells[h] == cells[h]
      && (IsFolded(f, f.cells[h]) <==> exists i :: 0 <= i < |hs| && Starts(links, cells[hs[i]], x))
  {
    RecordedIffStarted(links, cells, hs, x);
  }

  predicate IsLive(ch: Channel, x: string) {
    !ch.removed && IdOf(ch) == Some(x)
  }

  /** The channel at position `n` of the store is folded when its turn comes. */
  ghost predicate FoldsAt(links: Links, cells: seq<Channel>, hs: seq<Handle>, n: nat)
    requires InRange(cells, hs) && Distinct(hs) && n < |hs|
  {
    FoldAll(links, cells, hs[..n]).Some? && IsFolded(FoldAll(links, cells, hs[..n]).value, cells[hs[n]])
  }

  lemma FoldsAtIff(links: Links, cells: seq<Channel>, hs: seq<Handle>, n: nat, x: string)
    requires InRange(cells, hs) && Distinct(hs) && NotALink(links, cells, hs, x) && FoldAll(links, cells, hs).Some?
    requires n < |hs| && IsLive(cells[hs[n]], x)
    ensures FoldsAt(links, cells, hs, n) <==> exists i :: 0 <= i < n && Starts(links, cells[hs[i]], x)
  {
    if FoldAll(links, cells, hs[..n]).None? {
      FailureIsFinal(links, cells, hs, n);
    }
    assert hs[n] !in hs[..n];
    FoldedIffStarted(links, cells, hs[..n], hs[n], x);
    if i :| 0 <= i < n && Starts(links, cells[hs[i]], x) {
      assert Starts(links, cells[hs[..n][i]], x);
    }
  }

  lemma KeptFirstFolds(links: Links, cells: seq<Channel>, hs: seq<Handle>, a: nat, n: nat, x: string)
    requires InRange(cells, hs) && Distinct(hs) && NotALink(links, cells, hs, x) && FoldAll(links, cells, hs).Some?
    requires a < n < |hs| && IsLive(cells[hs[n]], x) && Starts(links, cells[hs[a]], x)
    ensures FoldsAt(links, cells, hs, n)
  {
    FoldsAtIff(links, cells, hs, n, x);
  }

  lemma NobodyBefore(links: Links, cells: seq<Channel>, hs: seq<Handle>, n: nat, x: string)
    requires InRange(cells, hs) && Distinct(hs) && NotALink(links, cells, hs, x) && FoldAll(links, cells, hs).Some?
    requires n < |hs| && IsLive(cells[hs[n]], x) && forall i | 0 <= i < n :: !Starts(links, cells[hs[i]], x)
    ensures !FoldsAt(links, cells, hs, n)
  {
    FoldsAtIff(links, cells, hs, n, x);
  }

  /** Every later live channel of the id is folded. */
  ghost predicate RestFolds(links: Links, cells: seq<Channel>, hs: seq<Handle>, a: nat, x: string)
    requires InRange(cells, hs) && Distinct(hs)
  {
    forall n | a < n < |hs| && IsLive(cells[hs[n]], x) :: FoldsAt(links, cells, hs, n)
  }

  /**
   All live channels of an id become one exactly when there is only one or the first keeps the id:
   `a` is the position of the first.
   */
  lemma AllFoldIffFirstKeeps(links: Links, cells: seq<Channel>, hs: seq<Handle>, a: nat, x: string)
    requires InRange(cells, hs) && Distinct(hs) && NotALink(links, cells, hs, x) && FoldAll(links, cells, hs).Some?
    requires a < |hs| && IsLive(cells[hs[a]], x) && forall i | 0 <= i < a :: !IsLive(cells[hs[i]], x)
    ensures !FoldsAt(links, cells, hs, a)
    ensures RestFolds(links, cells, hs, a, x) <==>
      KeepsId(links, cells[hs[a]]) || forall n | a < n < |hs| :: !IsLive(cells[hs[n]], x)
  {
    NobodyBefore(links, cells, hs, a, x);
    if KeepsId(links, cells[hs[a]]) {
      forall n | a < n < |hs| && IsLive(cells[hs[n]], x) ensures FoldsAt(links, cells, hs, n) {
        KeptFirstFolds(links, cells, hs, a, n, x);
      }
    } else if n :| a < n < |hs| && IsLive(cells[hs[n]], x) {
      var b := SecondLive(cells, hs, a, n, x);
      NobodyBefore(links, cells, hs, b, x);
    }
  }

  /** The next live channel of the id after position `a`. */
  lemma {:induction false} SecondLive(cells: seq<Channel>, hs: seq<Handle>, a: nat, n: nat, x: string) returns (b: nat)
    requires InRange(cells, hs) && a < n < |hs| && IsLive(cells[hs[n]], x)
    ensures a < b <= n && IsLive(cells[hs[b]], x) && forall i | a < i < b :: !IsLive(cells[hs[i]], x)
  {
    if m: nat :| a < m < n && IsLive(cells[hs[m]], x) {
      b := SecondLive(cells, hs, a, m, x);
    } else {
      b := n;
    }
  }

  /** Two live channels with one id: the playlist keeps both exactly when the first one's id is rewritten. */
  lemma UrlIdsAreNotFolded(links: Links, a: Channel, b: Channel, x: string)
    requires IsLive(a, x) && IsLive(b, x) && FoldAll(links, [a, b], [0, 1]).Some?
    ensures var kept := Collect([0, 1], FoldAll(links, [a, b], [0, 1]).value.streams);
      if KeepsId(links, a) then kept == [0] || kept == [1] else kept == [0, 1]
  {
    var cells, hs := [a, b], [0, 1];
    assert hs[..1] == [0];
    LastRound(links, cells, hs, 1);
    SecondOfTwo(links, cells, x);
    FoldedOrKept(links, FoldAll(links, cells, [0]).value, 1);
    CollectTwo(FoldAll(links, cells, hs).value.streams);
  }

  lemma SecondOfTwo(links: Links, cells: seq<Channel>, x: string)
    requires |cells| == 2 && IsLive(cells[0], x) && IsLive(cells[1], x) && FoldAll(links, cells, [0]).Some?
    ensures var f := FoldAll(links, cells, [0]).value;
      f.streams.Keys == {0} && f.cells[1] == cells[1] && (IsFolded(f, cells[1]) <==> KeepsId(links, cells[0]))
      && (IsFolded(f, cells[1]) ==> f.byId[x] == 0)
  {
    FirstOfTwo(links, cells);
    FoldedIffStarted(links, cells, [0], 1, x);
    assert Starts(links, cells[[0][0]], x) <==> KeepsId(links, cells[0]);
    var f := FoldAll(links, cells, [0]).value;
    assert IsFolded(f, cells[1]) ==> f.byId[x] in f.streams;
  }

  lemma FirstOfTwo(links: Links, cells: seq<Channel>)
    requires |cells| == 2 && !cells[0].removed && FoldAll(links, cells, [0]).Some?
    ensures FoldAll(links, cells, [0]).value.streams.Keys == {0}
  {
    assert [0][..0] == [] && FoldAll(links, cells, []) == Some(Fold(cells, map[], map[]));
  }

  lemma CollectTwo(streams: Fallbacks)
    ensures Collect([0, 1], streams) == (if 0 in streams then [0] else []) + if 1 in streams then [1] else []
  {
    assert [0, 1][..1] == [0] && [0][..0] == [];
    assert Collect([0], streams) == [] + if 0 in streams then [0] else [];
  }

  /** With a URL for an id that proxying replaces, two channels that share it both stay. */
  lemma UrlIdExample()
    ensures
      var links := Links((v: string) => v == "http://host/id", (_: string, _: string) => Some("link"),
                         (_: string, _: seq<Stream>) => None);
      var ch := Channel("a", Some("u"), map[TVG_ID := "http://host/id"], map[], false, false, 0,
          ChannelStore.Playlist("p", true));
      FoldAll(links, [ch, ch], [0, 1]).Some?
          && Collect([0, 1], FoldAll(links, [ch, ch], [0, 1]).value.streams) == [0, 1]
  {
    var links := Links((v: string) => v == "http://host/id", (_: string, _: string) => Some("link"),
                       (_: string, _: seq<Stream>) => None);
    var ch := Channel("a", Some("u"), map[TVG_ID := "http://host/id"], map[], false, false, 0,
        ChannelStore.Playlist("p", true));
    NeverFails(links, [ch, ch], [0, 1]);
    UrlIdsAreNotFolded(links, ch, ch, "http://host/id");
  }

  // ---------- What proxying does to the attributes ----------

  /** The n-th channel starts an entry of its own in a proxied playlist, so its attributes are rewritten. */
  ghost predicate IsRewritten(links: Links, cells: seq<Channel>, hs: seq<Handle>, n: nat)
    requires InRange(cells, hs) && Distinct(hs) && n < |hs| && FoldAll(links, cells, hs[..n]).Some?
  {
    var ch := cells[hs[n]];
    !ch.removed && ch.playlist.proxied && !IsFolded(FoldAll(links, cells, hs[..n]).value, ch)
  }

  lemma ProxiedHasLinks(links: Links, ch: Channel)
    requires !ProxyFails(links, ch)
    ensures HasLinks(links, ch, Proxied(links, ch))
  {
    forall k | k in ch.attrs ensures ProxyValue(links, ch, ch.attrs[k]).Some? {
    }
  }

  lemma LastRoundRewrites(links: Links, cells: seq<Channel>, hs: seq<Handle>, n: nat)
    requires InRange(cells, hs) && Distinct(hs) && n + 1 == |hs| && FoldAll(links, cells, hs).Some?
    ensures FoldAll(links, cells, hs[..n]).Some?
    ensures var after := FoldAll(links, cells, hs).value.cells[hs[n]];
      if IsRewritten(links, cells, hs, n) then HasLinks(links, cells[hs[n]], after) else after == cells[hs[n]]
  {
    LastRound(links, cells, hs, n);
    if IsRewritten(links, cells, hs, n) {
      ProxiedHasLinks(links, cells[hs[n]]);
    }
  }

  /** The n-th channel after the whole loop is as its own round has left it. */
  lemma {:induction false} AttributesAre(links: Links, cells: seq<Channel>, hs: seq<Handle>, n: nat)
    requires InRange(cells, hs) && Distinct(hs) && n < |hs| && FoldAll(links, cells, hs).Some?
    ensures FoldAll(links, cells, hs[..n]).Some?
    ensures var after := FoldAll(links, cells, hs).value.cells[hs[n]];
      if IsRewritten(links, cells, hs, n) then HasLinks(links, cells[hs[n]], after) else after == cells[hs[n]]
    decreases |hs|
  {
    var m := |hs| - 1;
    LastRound(links, cells, hs, m);
    if n == m {
      LastRoundRewrites(links, cells, hs, n);
    } else {
      assert hs[..m][..n] == hs[..n];
      AttributesAre(links, cells, hs[..m], n);
      StepTracked(links, FoldAll(links, cells, hs[..m]).value, hs[m]);
    }
  }

  /** Some attribute is a URL, and no link can be made for it. */
  ghost predicate HasBadLink(links: Links, ch: Channel) {
    exists k :: k in ch.attrs && links.isUrl(ch.attrs[k]) && links.fileUrl(ch.playlist.name, ch.attrs[k]) == None
  }

  /** The n-th channel is to be rewritten, and cannot be. */
  ghost predicate FailsAt(links: Links, cells: seq<Channel>, hs: seq<Handle>, n: nat)
    requires InRange(cells, hs) && Distinct(hs) && n < |hs|
  {
    FoldAll(links, cells, hs[..n]).Some? && IsRewritten(links, cells, hs, n) && HasBadLink(links, cells[hs[n]])
  }

  lemma FailsInPrefix(links: Links, cells: seq<Channel>, hs: seq<Handle>, m: nat, n: nat)
    requires InRange(cells, hs) && Distinct(hs) && n < m <= |hs|
    ensures InRange(cells, hs[..m]) && Distinct(hs[..m])
    ensures FailsAt(links, cells, hs[..m], n) <==> FailsAt(links, cells, hs, n)
  {
    assert hs[..m][..n] == hs[..n] && hs[..m][n] == hs[n];
  }

  lemma FailsInLastRound(links: Links, cells: seq<Channel>, hs: seq<Handle>, m: nat)
    requires InRange(cells, hs) && Distinct(hs) && m + 1 == |hs|
    ensures FoldAll(links, cells, hs).None? <==>
      FoldAll(links, cells, hs[..m]).None? || FailsAt(links, cells, hs, m)
  {
    assert hs == hs[..m] + [hs[m]] && hs[m] !in hs[..m];
    if FoldAll(links, cells, hs[..m]).Some? {
      assert FoldAll(links, cells, hs[..m]).value.cells[hs[m]] == cells[hs[m]];
      assert ProxyFails(links, cells[hs[m]]) <==> HasBadLink(links, cells[hs[m]]);
    }
  }

  /** The pass fails exactly when a link cannot be made for an attribute that is to be rewritten. */
  lemma {:induction false} PassFailsIff(links: Links, cells: seq<Channel>, hs: seq<Handle>)
    requires InRange(cells, hs) && Distinct(hs)
    ensures FoldAll(links, cells, hs).None? <==> exists n | 0 <= n < |hs| :: FailsAt(links, cells, hs, n)
  {
    if hs != [] {
      var m := |hs| - 1;
      PassFailsIff(links, cells, hs[..m]);
      FailsInLastRound(links, cells, hs, m);
      forall n | 0 <= n < m ensures FailsAt(links, cells, hs[..m], n) <==> FailsAt(links, cells, hs, n) {
        FailsInPrefix(links, cells, hs, m, n);
      }
    }
  }
}
