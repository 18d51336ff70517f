/**
 Channels and their store (internal/listing/m3u8/store). A channel is a Go pointer:
 here a handle into `cells`, so that updating a channel in place and reordering the
 store are different things, as they are in the source. URLs are kept as their text.
 */
module ChannelStore {
  import opened Basics
  import opened Buckets

  const TVG_ID := "tvg-id"
  const TVG_NAME := "tvg-name"

  datatype Playlist = Playlist(name: string, proxied: bool)

  datatype Selector = ByName | ByUrl | ByAttr(key: string) | ByTag(key: string) | Unknown

  datatype Channel = Channel(
    name: string,
    uri: Option<string>,
    attrs: map<string, string>,
    tags: map<string, string>,
    hidden: bool,
    removed: bool,
    priority: int,
    playlist: Playlist)
  {
    function Attr(key: string): Option<string> {
      if key in attrs then Some(attrs[key]) else None
    }

    /** `GetFieldValue`; no selector means the name. */
    function Field(selector: Option<Selector>): Option<string> {
      match selector
      case None => Some(name)
      case Some(ByName) => Some(name)
      case Some(ByUrl) => uri
      case Some(ByAttr(key)) => Attr(key)
      case Some(ByTag(key)) => if key in tags then Some(tags[key]) else None
      case Some(Unknown) => None
    }

    function SetAttr(key: string, value: string): Channel {
      this.(attrs := attrs[key := value])
    }

    function SetTag(key: string, value: string): Channel {
      this.(tags := tags[key := value])
    }

    /** A usable id: present and not empty. */
    predicate HasId(id: string) {
      id != "" && Attr(TVG_ID) == Some(id)
    }
  }

  /** A configured regular expression: its text, what it matches, and the input without its matches. */
  datatype Pattern = Pattern(text: string, matches: string -> bool, strip: string -> string)

  type Handle = nat

  ghost predicate InRange(cells: seq<Channel>, handles: seq<Handle>) {
    forall i | 0 <= i < |handles| :: handles[i] < |cells|
  }

  lemma SubRange(cells: seq<Channel>, xs: seq<Handle>, ys: seq<Handle>)
    requires InRange(cells, xs) && forall y | y in ys :: y in xs
    ensures InRange(cells, ys)
  {
    forall i | 0 <= i < |ys| ensures ys[i] < |cells| {
      assert ys[i] in xs;
    }
  }

  /** `ensureTvgID`; `hash` is `listing.GenerateHashID`. */
  function EnsureId(ch: Channel, hash: string -> string): Channel {
    if ch.Attr(TVG_ID).Some? && ch.attrs[TVG_ID] != "" then ch
    else if ch.Attr(TVG_NAME).Some? && ch.attrs[TVG_NAME] != "" then ch.SetAttr(TVG_ID, hash(ch.attrs[TVG_NAME]))
    else ch.SetAttr(TVG_ID, hash(ch.name))
  }

  /** A usable id stays; else the id is the hash of a usable tvg-name, or of the name. Nothing else changes. */
  lemma EnsuredId(ch: Channel, hash: string -> string)
    ensures var r := EnsureId(ch, hash);
      && r == ch.(attrs := r.attrs) && "tvg-id" in r.attrs
      && (forall key | key != "tvg-id" :: key in r.attrs <==> key in ch.attrs)
      && (forall key | key != "tvg-id" && key in ch.attrs :: r.attrs[key] == ch.attrs[key])
      && r.attrs["tvg-id"] ==
         if "tvg-id" in ch.attrs && ch.attrs["tvg-id"] != "" then ch.attrs["tvg-id"]
         else if "tvg-name" in ch.attrs && ch.attrs["tvg-name"] != "" then hash(ch.attrs["tvg-name"])
         else hash(ch.name)
  {
  }

  class Store {
    var cells: seq<Channel>
    var order: seq<Handle>   // the slice `channels`

    ghost predicate Valid()
      reads this
    {
      InRange(cells, order) && Distinct(order)
    }

    constructor ()
      ensures Valid() && cells == [] && order == []
    {
      cells, order := [], [];
    }

    /** Appends a new channel, which always gets a non-empty id. */
    method Add(channel: Channel, hash: string -> string)
      requires Valid() && forall s :: hash(s) != ""
      modifies this
      ensures Valid()
      ensures cells == old(cells) + [EnsureId(channel, hash)] && order == old(order) + [|old(cells)|]
      ensures exists id :: cells[|old(cells)|].HasId(id)
    {
      var ch := EnsureId(channel, hash);
      assert forall i | 0 <= i < |order| :: order[i] in order;
      cells := cells + [ch];
      order := order + [|cells| - 1];
      assert cells[|cells| - 1] == ch && ch.HasId(ch.attrs[TVG_ID]);
    }

    method Replace(channels: seq<Handle>)
      requires Valid() && InRange(cells, channels) && Distinct(channels)
      modifies this
      ensures Valid() && order == channels && cells == old(cells)
    {
      order := channels;
    }
  }
}
