/**
 The final pass over the store (internal/listing/m3u8/processor.go): channels with the
 same id fold into one channel with an ordered list of fallback streams.
 The functions give the meaning of each step; class `Processor` performs the loops.
 */
module PlaylistProcessor {
  import opened Basics
  import opened Buckets
  import opened ChannelStore

  datatype Stream = Stream(provider: string, url: string, hidden: bool)

  /** The URL generator and `isURL`; None is an error of the generator. */
  datatype Links = Links(
    isUrl: string -> bool,
    fileUrl: (string, string) -> Option<string>,             // provider, attribute value
    streamUrl: (string, seq<Stream>) -> Option<string>)      // channel name, streams

  type Fallbacks = map<Handle, seq<Stream>>

  /** The processor's maps, and the channels as the loop has left them. */
  datatype Fold = Fold(cells: seq<Channel>, byId: map<string, Handle>, streams: Fallbacks)

  function IdOf(ch: Channel): Option<string> {
    if ch.Attr(TVG_ID).Some? && ch.attrs[TVG_ID] != "" then Some(ch.attrs[TVG_ID]) else None
  }

  function StreamOf(ch: Channel): Stream
    requires ch.uri.Some?
  {
    Stream(ch.playlist.name, ch.uri.value, ch.hidden)
  }

  /** The channel's own stream, if it has a URI. */
  function Own(ch: Channel): seq<Stream> {
    if ch.uri.Some? then [StreamOf(ch)] else []
  }

  function ProxyValue(links: Links, ch: Channel, value: string): Option<string> {
    if links.isUrl(value) then links.fileUrl(ch.playlist.name, value) else Some(value)
  }

  /** Some attribute is a URL for which no link can be made. */
  ghost predicate ProxyFails(links: Links, ch: Channel) {
    exists k :: k in ch.attrs && ProxyValue(links, ch, ch.attrs[k]).None?
  }

  function Proxied(links: Links, ch: Channel): Channel
    requires forall k <- ch.attrs :: ProxyValue(links, ch, ch.attrs[k]).Some?
  {
    ch.(attrs := map k | k in ch.attrs :: ProxyValue(links, ch, ch.attrs[k]).value)
  }

  function Track(byId: map<string, Handle>, ch: Channel, h: Handle): map<string, Handle> {
    if IdOf(ch).Some? then byId[IdOf(ch).value := h] else byId
  }

  function AddStream(f: Fold, existing: Handle, h: Handle): Fold
    requires existing < |f.cells| && h < |f.cells| && existing in f.streams
  {
    var ch := f.cells[h];
    if ch.uri.None? then f
    else if ch.priority > f.cells[existing].priority then
      Fold(f.cells, Track(f.byId, ch, h), f.streams[h := [StreamOf(ch)] + f.streams[existing]] - {existing})
    else
      f.(streams := f.streams[existing := f.streams[existing] + [StreamOf(ch)]])
  }

  /** The maps refer to channels that exist and have streams. */
  ghost predicate Tracked(f: Fold) {
    && (forall id <- f.byId ::
          f.byId[id] < |f.cells| && f.byId[id] in f.streams && IdOf(f.cells[f.byId[id]]) == Some(id))
    && (forall h <- f.streams :: h < |f.cells|)
  }

  lemma AddStreamTracked(f: Fold, id: string, h: Handle)
    requires Tracked(f) && id in f.byId && h < |f.cells| && h !in f.streams && IdOf(f.cells[h]) == Some(id)
    ensures Tracked(AddStream(f, f.byId[id], h))
  {
  }

  /** One round of the loop over the store; None is an error. */
  ghost function Step(links: Links, f: Fold, h: Handle): Option<Fold>
    requires Tracked(f) && h < |f.cells|
  {
    var ch := f.cells[h];
    if ch.removed then Some(f)
    else if IdOf(ch).Some? && IdOf(ch).value in f.byId then Some(AddStream(f, f.byId[IdOf(ch).value], h))
    else if ch.playlist.proxied && ProxyFails(links, ch) then None
    else
      var ch' := if ch.playlist.proxied then Proxied(links, ch) else ch;
      Some(Fold(f.cells[h := ch'], Track(f.byId, ch', h), f.streams[h := Own(ch')]))
  }

  lemma StepTracked(links: Links, f: Fold, h: Handle)
    requires Tracked(f) && h < |f.cells| && h !in f.streams && Step(links, f, h).Some?
    ensures Tracked(Step(links, f, h).value) && |Step(links, f, h).value.cells| == |f.cells|
    ensures forall g | 0 <= g < |f.cells| && g != h :: Step(links, f, h).value.cells[g] == f.cells[g]
    ensures forall g | g != h && g !in f.streams :: g !in Step(links, f, h).value.streams
  {
    var ch := f.cells[h];
    if !ch.removed && IdOf(ch).Some? && IdOf(ch).value in f.byId {
      AddStreamTracked(f, IdOf(ch).value, h);
    }
  }

  /** The fold has seen the channels of `hs` only. */
  ghost predicate Seen(f: Fold, cells: seq<Channel>, hs: seq<Handle>) {
    && Tracked(f) && |f.cells| == |cells|
    && forall h | 0 <= h < |cells| && h !in hs :: f.cells[h] == cells[h] && h !in f.streams
  }

  /** The loop over the first channels of a store. */
  ghost function FoldAll(links: Links, cells: seq<Channel>, hs: seq<Handle>): (r: Option<Fold>)
    requires InRange(cells, hs) && Distinct(hs)
    ensures r.Some? ==> Seen(r.value, cells, hs)
  {
    if hs == [] then Some(Fold(cells, map[], map[]))
    else
      var n := |hs| - 1;
      assert hs == hs[..n] + [hs[n]];
      match FoldAll(links, cells, hs[..n])
      case None => None
      case Some(f) =>
        assert hs[n] !in hs[..n];
        var r := Step(links, f, hs[n]);
        (if r.Some? then StepTracked(links, f, hs[n]); r else r)
  }

  /** `updateChannelURI`, for the channels of proxied playlists that have streams. */
  function WithStreamUrl(links: Links, ch: Channel, streams: seq<Stream>): Channel {
    if ch.playlist.proxied && streams != [] && links.streamUrl(ch.name, streams).Some?
    then ch.(uri := links.streamUrl(ch.name, streams))
    else ch
  }

  /** The channels once the second loop has rewritten the URIs of those in `done`. */
  ghost predicate Finished(links: Links, f: Fold, cells: seq<Channel>, done: set<Handle>) {
    && |cells| == |f.cells|
    && forall h | 0 <= h < |cells| ::
         cells[h] == if h in done && h in f.streams then WithStreamUrl(links, f.cells[h], f.streams[h]) else f.cells[h]
  }

  /** `collectResults`: the channels with streams, in store order. */
  function Collect(hs: seq<Handle>, streams: Fallbacks): seq<Handle> {
    if hs == [] then []
    else Collect(hs[..|hs| - 1], streams) + if hs[|hs| - 1] in streams then [hs[|hs| - 1]] else []
  }

  /** The attributes that are URLs become their links under the name of the playlist; all else stays. */
  ghost predicate HasLinks(links: Links, before: Channel, after: Channel) {
    && after == before.(attrs := after.attrs) && after.attrs.Keys == before.attrs.Keys
    && forall k | k in before.attrs ::
         Some(after.attrs[k]) == if links.isUrl(before.attrs[k])
                                 then links.fileUrl(before.playlist.name, before.attrs[k])
                                 else Some(before.attrs[k])
  }

  class Processor {
    const links: Links
    var channelsById: map<string, Handle>
    var channelStreams: Fallbacks

    constructor (links: Links)
      ensures this.links == links && channelsById == map[] && channelStreams == map[]
    {
      this.links := links;
      channelsById, channelStreams := map[], map[];
    }

    function State(cells: seq<Channel>): Fold
      reads this
    {
      Fold(cells, channelsById, channelStreams)
    }

    /** Rewrites the attributes that are URLs, in map order, stopping at the first failure. */
    method ProxyChannelAttributes(st: Store, h: Handle) returns (failed: bool)
      requires h < |st.cells|
      modifies st`cells
      ensures failed <==> ProxyFails(links, old(st.cells)[h])
      ensures !failed ==> st.cells == old(st.cells)[h := Proxied(links, old(st.cells)[h])]
      ensures !failed ==> HasLinks(links, old(st.cells)[h], st.cells[h])
    {
      ghost var before := st.cells;
      ghost var ch := before[h];
      var todo := st.cells[h].attrs.Keys;
      while todo != {}
        invariant todo <= ch.attrs.Keys && |st.cells| == |before|
        invariant st.cells == before[h := ch.(attrs := st.cells[h].attrs)]
        invariant st.cells[h].attrs.Keys == ch.attrs.Keys
        invariant forall k <- todo :: st.cells[h].attrs[k] == ch.attrs[k]
        invariant forall k <- ch.attrs.Keys - todo :: Some(st.cells[h].attrs[k]) == ProxyValue(links, ch, ch.attrs[k])
        decreases todo
      {
        var key :| key in todo;
        var value := st.cells[h].attrs[key];
        if links.isUrl(value) {
          var link := links.fileUrl(st.cells[h].playlist.name, value);
          if link.None? {
            assert ProxyValue(links, ch, ch.attrs[key]).None?;
            return true;
          }
          st.cells := st.cells[h := st.cells[h].SetAttr(key, link.value)];
        }
        todo := todo - {key};
      }
      assert st.cells[h].attrs == Proxied(links, ch).attrs;
      failed := false;
    }

    method TrackChannel(st: Store, h: Handle)
      requires h < |st.cells|
      modifies this`channelsById
      ensures channelsById == Track(old(channelsById), st.cells[h], h)
    {
      var id := st.cells[h].Attr(TVG_ID);
      if id.Some? && id.value != "" {
        channelsById := channelsById[id.value := h];
      }
    }

    method AddStreamToChannel(st: Store, existing: Handle, h: Handle)
      requires Tracked(State(st.cells)) && existing < |st.cells| && h < |st.cells|
      requires existing in channelStreams && h !in channelStreams
      modifies this
      ensures State(st.cells) == AddStream(old(State(st.cells)), existing, h)
    {
      var ch := st.cells[h];
      if ch.uri.None? {
        return;
      }
      if ch.priority > st.cells[existing].priority {
        channelStreams := channelStreams[h := [StreamOf(ch)] + channelStreams[existing]];
        channelStreams := channelStreams - {existing};
        TrackChannel(st, h);
      } else {
        channelStreams := channelStreams[existing := channelStreams[existing] + [StreamOf(ch)]];
      }
    }

    /** One round of the loop of `Process`. */
    method ProcessChannel(st: Store, h: Handle) returns (failed: bool)
      requires Tracked(State(st.cells)) && h < |st.cells| && h !in channelStreams
      modifies this, st`cells
      ensures failed <==> Step(links, old(State(st.cells)), h).None?
      ensures !failed ==> State(st.cells) == Step(links, old(State(st.cells)), h).value
    {
      var ch := st.cells[h];
      if ch.removed {
        return false;
      }
      var id := ch.Attr(TVG_ID);
      if id.Some? && id.value != "" && id.value in channelsById {
        AddStreamToChannel(st, channelsById[id.value], h);
        return false;
      }
      if ch.playlist.proxied {
        failed := ProxyChannelAttributes(st, h);
        if failed {
          return;
        }
      }
      channelStreams := channelStreams[h := if st.cells[h].uri.Some? then [StreamOf(st.cells[h])] else []];
      TrackChannel(st, h);
      failed := false;
    }

    /** The second loop of `Process`, over the stream map in map order. */
    method UpdateUris(st: Store)
      requires Tracked(State(st.cells))
      modifies st`cells
      ensures Finished(links, old(State(st.cells)), st.cells, channelStreams.Keys)
    {
      ghost var f := State(st.cells);
      var todo := channelStreams.Keys;
      while todo != {}
        invariant todo <= channelStreams.Keys
        invariant Finished(links, f, st.cells, channelStreams.Keys - todo)
        decreases todo
      {
        var h :| h in todo;
        var streams := channelStreams[h];
        if st.cells[h].playlist.proxied && |streams| > 0 {
          var u := links.streamUrl(st.cells[h].name, streams);
          if u.Some? {
            st.cells := st.cells[h := st.cells[h].(uri := u)];
          }
        }
        todo := todo - {h};
      }
    }

    /** The first loop of `Process`. */
    method FoldStore(st: Store) returns (failed: bool)
      requires st.Valid() && channelsById == map[] && channelStreams == map[]
      modifies this, st`cells
      ensures failed <==> FoldAll(links, old(st.cells), st.order).None?
      ensures !failed ==> FoldAll(links, old(st.cells), st.order) == Some(State(st.cells))
    {
      ghost var before := st.cells;
      for n := 0 to |st.order|
        invariant |st.cells| == |before|
        invariant FoldAll(links, before, st.order[..n]) == Some(State(st.cells))
      {
        assert st.order[..n + 1][..n] == st.order[..n] && st.order[n] !in st.order[..n];
        failed := ProcessChannel(st, st.order[n]);
        if failed {
          FailureIsFinal(links, before, st.order, n + 1);
          return;
        }
      }
      assert st.order[..|st.order|] == st.order;
      failed := false;
    }

    method CollectResults(st: Store) returns (kept: seq<Handle>)
      ensures kept == Collect(st.order, channelStreams)
    {
      kept := [];
      for n := 0 to |st.order|
        invariant kept == Collect(st.order[..n], channelStreams)
      {
        assert st.order[..n + 1][..n] == st.order[..n];
        if st.order[n] in channelStreams {
          kept := kept + [st.order[n]];
        }
      }
      assert st.order[..|st.order|] == st.order;
    }

    /** `Process`, after the rules have run. */
    method Process(st: Store) returns (result: Option<seq<Handle>>)
      requires st.Valid() && channelsById == map[] && channelStreams == map[]
      modifies this, st`cells
      ensures result.None? <==> FoldAll(links, old(st.cells), st.order).None?
      ensures result.Some? ==>
        var f := FoldAll(links, old(st.cells), st.order).value;
        && channelStreams == f.streams
        && Finished(links, f, st.cells, f.streams.Keys)
        && result.value == Collect(st.order, f.streams)
    {
      var failed := FoldStore(st);
      if failed {
        return None;
      }
      UpdateUris(st);
      var kept := CollectResults(st);
      result := Some(kept);
    }
  }

  lemma {:induction false} FailureIsFinal(links: Links, cells: seq<Channel>, hs: seq<Handle>, n: nat)
    requires InRange(cells, hs) && Distinct(hs) && n <= |hs|
    requires InRange(cells, hs[..n]) && Distinct(hs[..n]) && FoldAll(links, cells, hs[..n]).None?
    ensures FoldAll(links, cells, hs).None?
    decreases |hs|
  {
    if n < |hs| {
      var m := |hs| - 1;
      assert hs[..m][..n] == hs[..n];
      FailureIsFinal(links, cells, hs[..m], n);
    } else {
      assert hs[..n] == hs;
    }
  }
}
