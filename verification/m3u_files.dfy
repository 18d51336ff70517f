/**
 Whole playlist files: encoding a list of printable tracks and decoding the text gives
 the same list and then the end of the file, every time it is asked again.
 */
module M3uFiles {
  import opened Basics
  import opened M3uText
  import opened M3uCodec
  import opened M3uRoundTrip

  // ---------- What an encoder can have written ----------

  /** The text of the items one after the other, each as `prints` allows. */
  ghost predicate IsBody<T>(prints: (T, string) -> bool, items: seq<T>, text: string) {
    if items == [] then text == ""
    else exists first, more :: prints(items[0], first) && IsBody(prints, items[1..], more) && text == first + more
  }

  /** The header is written with the first item, so no items make an empty file. */
  ghost predicate IsHeaded<T>(heads: string -> bool, prints: (T, string) -> bool, items: seq<T>, text: string) {
    if items == [] then text == ""
    else exists head, body :: heads(head) && IsBody(prints, items, body) && text == head + body
  }

  ghost function TrackTexts(other: Decimal -> string): (Track, string) -> bool {
    (t: Track, text: string) => IsTrackText(t, text, other)
  }

  ghost function HeaderTexts(header: map<string, string>): string -> bool {
    (text: string) => IsHeaderText(header, text)
  }

  ghost predicate IsFile(header: map<string, string>, tracks: seq<Track>, text: string, other: Decimal -> string) {
    IsHeaded(HeaderTexts(header), TrackTexts(other), tracks, text)
  }

  /** `heads` and `prints` allow whatever an encoder writes. */
  ghost predicate Covers(header: map<string, string>, other: Decimal -> string,
                         heads: string -> bool, prints: (Track, string) -> bool) {
    && (forall text {:trigger IsHeaderText(header, text)} | IsHeaderText(header, text) :: heads(text))
    && (forall t, text {:trigger IsTrackText(t, text, other)} | IsTrackText(t, text, other) :: prints(t, text))
  }

  lemma OneItem<T>(prints: (T, string) -> bool, x: T, text: string)
    requires prints(x, text)
    ensures IsBody(prints, [x], text)
  {
    assert IsBody(prints, [x][1..], "") && text == text + "";
  }

  lemma {:induction false} BodySnoc<T>(prints: (T, string) -> bool, items: seq<T>, text: string, x: T, last: string)
    requires IsBody(prints, items, text) && prints(x, last)
    ensures IsBody(prints, items + [x], text + last)
  {
    if items == [] {
      OneItem(prints, x, last);
      assert items + [x] == [x] && text + last == last;
    } else {
      var first, more :| prints(items[0], first) && IsBody(prints, items[1..], more) && text == first + more;
      BodySnoc(prints, items[1..], more, x, last);
      assert (items + [x])[1..] == items[1..] + [x];
      assert text + last == first + (more + last);
    }
  }

  lemma NextWritten<T>(heads: string -> bool, prints: (T, string) -> bool, items: seq<T>, before: string, x: T,
                       text: string)
    requires items != [] && IsHeaded(heads, prints, items, before) && prints(x, text)
    ensures IsHeaded(heads, prints, items + [x], before + text)
  {
    var head, body :| heads(head) && IsBody(prints, items, body) && before == head + body;
    BodySnoc(prints, items, body, x, text);
    assert before + text == head + (body + text);
  }

  lemma FirstWritten<T>(heads: string -> bool, prints: (T, string) -> bool, x: T, head: string, text: string)
    requires heads(head) && prints(x, text)
    ensures IsHeaded(heads, prints, [x], head + text)
  {
    OneItem(prints, x, text);
  }

  method EncodeFirst(e: Encoder, t: Track, ghost heads: string -> bool, ghost prints: (Track, string) -> bool)
    returns (ghost head: string, ghost text: string)
    requires !e.closed && !e.headerWritten && e.out == "" && t.uri.Some?
    requires Covers(e.headerAttrs, e.other, heads, prints)
    modifies e
    ensures !e.closed && e.headerWritten && heads(head) && prints(t, text) && e.out == head + text
  {
    ghost var before := e.out;
    var error := e.Encode(t);
    head, text := FirstTexts(e.headerAttrs, e.other, heads, prints, t, before, e.out);
  }

  lemma FirstTexts(header: map<string, string>, other: Decimal -> string, heads: string -> bool,
                   prints: (Track, string) -> bool, t: Track, before: string, after: string)
    returns (head: string, text: string)
    requires Covers(header, other, heads, prints) && before == ""
    requires exists head, text ::
      IsHeaderText(header, head) && IsTrackText(t, text, other) && after == before + head + text
    ensures heads(head) && prints(t, text) && after == head + text
  {
    head, text :| IsHeaderText(header, head) && IsTrackText(t, text, other) && after == before + head + text;
    assert "" + head == head;
  }

  /** One more track appends a text printed for it. */
  method EncodeNext(e: Encoder, t: Track, ghost heads: string -> bool, ghost prints: (Track, string) -> bool)
    returns (ghost text: string)
    requires !e.closed && e.headerWritten && t.uri.Some?
    requires Covers(e.headerAttrs, e.other, heads, prints)
    modifies e
    ensures !e.closed && e.headerWritten && prints(t, text) && e.out == old(e.out) + text
  {
    ghost var before := e.out;
    var error := e.Encode(t);
    text :| IsTrackText(t, text, e.other) && e.out == before + text;
  }

  method EncodeTracks(e: Encoder, tracks: seq<Track>, ghost heads: string -> bool,
                      ghost prints: (Track, string) -> bool)
    requires !e.closed && !e.headerWritten && e.out == "" && forall t <- tracks :: t.uri.Some?
    requires Covers(e.headerAttrs, e.other, heads, prints)
    modifies e
    ensures !e.closed && IsHeaded(heads, prints, tracks, e.out)
  {
    if tracks == [] {
      return;
    }
    ghost var head, first := EncodeFirst(e, tracks[0], heads, prints);
    FirstWritten(heads, prints, tracks[0], head, first);
    assert tracks[..1] == [tracks[0]];
    for i := 1 to |tracks|
      invariant !e.closed && e.headerWritten && IsHeaded(heads, prints, tracks[..i], e.out)
    {
      ghost var before := e.out;
      ghost var text := EncodeNext(e, tracks[i], heads, prints);
      NextWritten(heads, prints, tracks[..i], before, tracks[i], text);
      assert tracks[..i + 1] == tracks[..i] + [tracks[i]];
    }
    assert tracks[..|tracks|] == tracks;
  }

  /** Encodes every track with a new encoder. */
  method EncodeAll(header: map<string, string>, tracks: seq<Track>, other: Decimal -> string) returns (text: string)
    requires forall t <- tracks :: t.uri.Some?
    ensures IsFile(header, tracks, text, other)
  {
    var e := new Encoder(header, other);
    EncodeTracks(e, tracks, HeaderTexts(header), TrackTexts(other));
    e.Close();
    text := e.out;
  }

  // ---------- Reading it back ----------

  /** The first `n` results of a decoder. */
  function DecodeMany(parseUrl: string -> Option<string>, c: Cursor, n: nat): seq<Item>
    decreases n
  {
    if n == 0 then []
    else
      var (item, next) := DecodeNext(parseUrl, c);
      [item] + DecodeMany(parseUrl, next, n - 1)
  }

  /** Every track, and then the end of the file for ever. */
  function Delivered(tracks: seq<Track>, n: nat): seq<Item> {
    if n == 0 then []
    else if tracks == [] then [Eof] + Delivered(tracks, n - 1)
    else [Got(tracks[0])] + Delivered(tracks[1..], n - 1)
  }

  ghost predicate PrintableHeader(header: map<string, string>) {
    forall k <- header :: '\n' !in k && '\n' !in header[k]
  }

  lemma ExtInfPart(t: Track, keys: seq<string>, rest: string, parseUrl: string -> Option<string>,
                   other: Decimal -> string)
    requires Printable(t, parseUrl) && forall k :: k in keys <==> k in t.attrs
    ensures NextTrack(parseUrl, Lines(ExtInfLine(t, keys, other) + "\n" + rest), None)
         == NextTrack(parseUrl, Lines(rest), Some(t.(uri := None, tags := map[])))
  {
    ExtInfIsSharp(t, keys, other);
    SharpLine(ExtInfLine(t, keys, other));
    LinesCons(ExtInfLine(t, keys, other), rest);
    ExtInfStep(t, keys, parseUrl, other, Lines(rest));
  }

  lemma UriPart(u: string, more: string, parseUrl: string -> Option<string>, t: Track)
    requires IsUri(u, parseUrl)
    ensures NextTrack(parseUrl, Lines(u + "\n" + more), Some(t)) == (Got(t.(uri := Some(u))), Lines(more))
  {
    LinesCons(u, more);
    UriStep(u, parseUrl, t, Lines(more));
  }

  lemma TagPart(t: Track, tagKeys: seq<string>, rest: string, parseUrl: string -> Option<string>)
    requires Printable(t, parseUrl) && forall k :: k in tagKeys <==> k in t.tags
    ensures NextTrack(parseUrl, Lines(TagLines(t.tags, tagKeys) + rest), Some(t.(uri := None, tags := map[])))
         == NextTrack(parseUrl, Lines(rest), Some(t.(uri := None)))
  {
    TagSteps(t.tags, tagKeys, parseUrl, t.(uri := None, tags := map[]), rest);
    FilledIs(map[], t.tags, tagKeys);
    assert Filled(map[], t.tags, tagKeys) == t.tags;
  }

  lemma PartsJoined(line: string, tags: string, uri: string, more: string)
    ensures line + "\n" + tags + (uri + "\n") + more == line + "\n" + (tags + (uri + "\n" + more))
  {
  }

  /** One printed track is read as that track, leaving what follows. */
  lemma TrackReadBack(t: Track, text: string, more: string, parseUrl: string -> Option<string>,
                      other: Decimal -> string)
    requires Printable(t, parseUrl) && IsTrackText(t, text, other)
    ensures NextTrack(parseUrl, Lines(text + more), None) == (Got(t), Lines(more))
  {
    var keys, tagKeys :|
      && IsListing(keys, t.attrs, PairLess(t.attrs)) && IsListing(tagKeys, t.tags, KeyOrder())
      && text == ExtInfLine(t, keys, other) + "\n" + TagLines(t.tags, tagKeys)
                 + if t.uri.Some? then t.uri.value + "\n" else "";
    var u := t.uri.value;
    var rest := u + "\n" + more;
    PartsJoined(ExtInfLine(t, keys, other), TagLines(t.tags, tagKeys), u, more);
    ExtInfPart(t, keys, TagLines(t.tags, tagKeys) + rest, parseUrl, other);
    TagPart(t, tagKeys, rest, parseUrl);
    UriPart(u, more, parseUrl, t.(uri := None));
  }

  /** Any text printed for `t` is read as `t`, whatever follows. */
  ghost predicate ReadsBack(prints: (Track, string) -> bool, t: Track, parseUrl: string -> Option<string>) {
    forall text, more | prints(t, text) ::
      DecodeNext(parseUrl, Cursor(Lines(text + more), true, false)) == (Got(t), Cursor(Lines(more), true, false))
  }

  lemma PrintableReadsBack(t: Track, parseUrl: string -> Option<string>, other: Decimal -> string)
    requires Printable(t, parseUrl)
    ensures ReadsBack(TrackTexts(other), t, parseUrl)
  {
    forall text, more | TrackTexts(other)(t, text)
      ensures DecodeNext(parseUrl, Cursor(Lines(text + more), true, false))
          == (Got(t), Cursor(Lines(more), true, false))
    {
      TrackReadBack(t, text, more, parseUrl, other);
    }
  }

  lemma {:induction false} BodyReadBack(prints: (Track, string) -> bool, tracks: seq<Track>, text: string,
                                        parseUrl: string -> Option<string>, n: nat)
    requires (forall t <- tracks :: ReadsBack(prints, t, parseUrl)) && IsBody(prints, tracks, text)
    ensures DecodeMany(parseUrl, Cursor(Lines(text), true, false), n) == Delivered(tracks, n)
  {
    if n > 0 {
      if tracks == [] {
        EndStays(parseUrl, [], n - 1);
      } else {
        var first, more :| prints(tracks[0], first) && IsBody(prints, tracks[1..], more) && text == first + more;
        assert ReadsBack(prints, tracks[0], parseUrl);
        BodyReadBack(prints, tracks[1..], more, parseUrl, n - 1);
      }
    }
  }

  /** Every track the decoder returns has a URI. */
  lemma {:induction false} DecodedHasUri(parseUrl: string -> Option<string>, lines: seq<string>, track: Option<Track>)
    ensures var item := NextTrack(parseUrl, lines, track).0; item.Got? ==> item.track.uri.Some?
    decreases |lines|
  {
    if lines != [] {
      var line, rest := Trim(lines[0]), lines[1..];
      forall t ensures var item := NextTrack(parseUrl, rest, t).0; item.Got? ==> item.track.uri.Some? {
        DecodedHasUri(parseUrl, rest, t);
      }
    }
  }

  lemma {:induction false} EndStays(parseUrl: string -> Option<string>, lines: seq<string>, n: nat)
    ensures DecodeMany(parseUrl, Cursor(lines, true, true), n) == Delivered([], n)
  {
    if n > 0 {
      EndStays(parseUrl, lines, n - 1);
    }
  }

  lemma {:induction false} NothingToRead(parseUrl: string -> Option<string>, n: nat)
    ensures DecodeMany(parseUrl, Cursor([], false, false), n) == Delivered([], n)
  {
    if n > 0 {
      NothingToRead(parseUrl, n - 1);
    }
  }

  lemma HeaderIsSharp(header: map<string, string>, keys: seq<string>)
    requires PrintableHeader(header) && forall k | k in keys :: k in header
    ensures IsSharpLine(HeaderLine(header, keys)) && HEADER <= HeaderLine(header, keys)
  {
    if keys == [] {
      assert HeaderLine(header, keys) == HEADER;
      assert forall c | c in HEADER :: c in {'#', 'E', 'X', 'T', 'M', '3', 'U'};
    } else {
      JoinedHasNo(header, keys, '\n');
      JoinedEnds(header, keys);
      var joined := JoinPairs(header, keys);
      ThreeParts(HEADER, " " + joined, "");
      assert HeaderLine(header, keys) == HEADER + (" " + joined + "");
      PrefixOf(HEADER, " " + joined + "");
    }
  }

  /** The first call reads the header line and goes on as if it had been read before. */
  lemma HeaderReadBack(header: map<string, string>, head: string, body: string, parseUrl: string -> Option<string>)
    requires PrintableHeader(header) && IsHeaderText(header, head)
    ensures DecodeNext(parseUrl, Cursor(Lines(head + body), false, false))
        == DecodeNext(parseUrl, Cursor(Lines(body), true, false))
  {
    var keys :| IsListing(keys, header, PairLess(header)) && head == HeaderLine(header, keys) + "\n";
    HeaderIsSharp(header, keys);
    SharpLine(HeaderLine(header, keys));
    LinesCons(HeaderLine(header, keys), body);
    assert Lines(head + body)[1..] == Lines(body);
  }

  /** Decoding undoes encoding. */
  lemma RoundTrip(header: map<string, string>, tracks: seq<Track>, text: string, parseUrl: string -> Option<string>,
                  other: Decimal -> string, n: nat)
    requires PrintableHeader(header) && (forall t <- tracks :: Printable(t, parseUrl))
        && IsFile(header, tracks, text, other)
    ensures DecodeMany(parseUrl, Cursor(Lines(text), false, false), n) == Delivered(tracks, n)
  {
    if tracks == [] {
      NothingToRead(parseUrl, n);
    } else {
      var head, body :| HeaderTexts(header)(head) && IsBody(TrackTexts(other), tracks, body) && text == head + body;
      HeaderReadBack(header, head, body, parseUrl);
      forall t <- tracks ensures ReadsBack(TrackTexts(other), t, parseUrl) {
        PrintableReadsBack(t, parseUrl, other);
      }
      BodyReadBack(TrackTexts(other), tracks, body, parseUrl, n);
    }
  }

  lemma {:induction false} DeliveredIs(tracks: seq<Track>, n: nat)
    ensures |Delivered(tracks, n)| == n
    ensures forall i | 0 <= i < n :: Delivered(tracks, n)[i] == if i < |tracks| then Got(tracks[i]) else Eof
  {
    if n > 0 {
      DeliveredIs(if tracks == [] then [] else tracks[1..], n - 1);
    }
  }

  function After(parseUrl: string -> Option<string>, c: Cursor, n: nat): Cursor
    decreases n
  {
    if n == 0 then c else After(parseUrl, DecodeNext(parseUrl, c).1, n - 1)
  }

  lemma {:induction false} DecodeOneMore(parseUrl: string -> Option<string>, c: Cursor, n: nat)
    ensures DecodeMany(parseUrl, c, n + 1)
        == DecodeMany(parseUrl, c, n) + [DecodeNext(parseUrl, After(parseUrl, c, n)).0]
    ensures After(parseUrl, c, n + 1) == DecodeNext(parseUrl, After(parseUrl, c, n)).1
    decreases n
  {
    var next := DecodeNext(parseUrl, c).1;
    if n == 0 {
      assert DecodeMany(parseUrl, next, 0) == [] && After(parseUrl, next, 0) == next;
    } else {
      DecodeOneMore(parseUrl, next, n - 1);
    }
  }

  function Items(tracks: seq<Track>): seq<Item> {
    seq(|tracks|, i requires 0 <= i < |tracks| => Got(tracks[i]))
  }

  /** Decodes `limit` tracks, or up to the first result that is not a track. */
  method DecodeAll(text: string, parseUrl: string -> Option<string>, limit: nat)
    returns (tracks: seq<Track>, end: Option<Item>)
    ensures |tracks| <= limit && (end.None? ==> |tracks| == limit)
    ensures end.Some? ==> !end.value.Got?
    ensures DecodeMany(parseUrl, Cursor(Lines(text), false, false), |tracks| + if end.None? then 0 else 1)
         == Items(tracks) + if end.None? then [] else [end.value]
  {
    var d := new Decoder(text, parseUrl);
    ghost var start := d.State();
    tracks, end := [], None;
    while |tracks| < limit
      invariant |tracks| <= limit && d.parseUrl == parseUrl
      invariant DecodeMany(parseUrl, start, |tracks|) == Items(tracks) && d.State() == After(parseUrl, start, |tracks|)
    {
      DecodeOneMore(parseUrl, start, |tracks|);
      var item := d.Decode();
      if !item.Got? {
        end := Some(item);
        return;
      }
      assert Items(tracks + [item.track]) == Items(tracks) + [item];
      tracks := tracks + [item.track];
    }
  }

  /** An encoder followed by a decoder is the identity. */
  method WriteAndRead(header: map<string, string>, tracks: seq<Track>, parseUrl: string -> Option<string>,
                      other: Decimal -> string)
    returns (back: seq<Track>, end: Option<Item>)
    requires PrintableHeader(header) && forall t <- tracks :: Printable(t, parseUrl)
    ensures back == tracks && end == Some(Eof)
  {
    var text := EncodeAll(header, tracks, other);
    back, end := DecodeAll(text, parseUrl, |tracks| + 1);
    var n := |back| + if end.None? then 0 else 1;
    RoundTrip(header, tracks, text, parseUrl, other, n);
    DeliveredIs(tracks, n);
    SameTracks(back, end, tracks);
  }

  lemma SameTracks(back: seq<Track>, end: Option<Item>, tracks: seq<Track>)
    requires |back| <= |tracks| + 1 && (end.None? ==> |back| == |tracks| + 1) && (end.Some? ==> !end.value.Got?)
    requires Delivered(tracks, |back| + if end.None? then 0 else 1)
          == Items(back) + if end.None? then [] else [end.value]
    ensures back == tracks && end == Some(Eof)
  {
    var n := |back| + if end.None? then 0 else 1;
    var all := Delivered(tracks, n);
    DeliveredIs(tracks, n);
    assert forall i | 0 <= i < |back| :: all[i] == Got(back[i]);
    assert |tracks| < n ==> all[|tracks|] == Eof;
    assert all[|back|] == end.value;
  }
}
