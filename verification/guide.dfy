/**
 The merged programme guide (internal/listing/xmltv/streamer.go): channels of all sources
 first, then programmes, under the ids the playlist asks for. Hashing is a function of
 the hashed text; distinct texts may share a hash.
 */
module Guides {
  import opened Basics

  datatype Channel = Channel(id: string, names: seq<string>)
  datatype Programme = Programme(channel: string, start: Option<string>, id: string)
  datatype Element = ChannelElement(channel: Channel) | ProgrammeElement(programme: Programme) | OtherElement

  /** What a streamer is built with: ids the playlist uses, each with a name or "". */
  datatype Config = Config(requested: map<string, string>, hash: string -> string)

  datatype Guide = Guide(
    added: map<string, seq<string>>,   // addedChannels
    mapping: map<string, string>,      // channelIDMapping
    programmes: set<string>,           // addedProgrammes
    out: seq<Element>)                 // what the encoder was given

  const EMPTY := Guide(map[], map[], {}, [])

  // ---------- Channels ----------

  /** The ids under which a channel may be asked for, best first. */
  function Candidates(cfg: Config, c: Channel): seq<string> {
    [c.id] + seq(|c.names|, i requires 0 <= i < |c.names| => cfg.hash(c.names[i]))
  }

  /** The first of `ids` that is asked for. */
  function FirstRequested(cfg: Config, ids: seq<string>): Option<string> {
    if ids == [] then None
    else if ids[0] in cfg.requested then Some(ids[0])
    else FirstRequested(cfg, ids[1..])
  }

  function Pick(cfg: Config, c: Channel): Option<string> {
    FirstRequested(cfg, Candidates(cfg, c))
  }

  predicate NamesMatch(current: seq<string>, existing: seq<string>) {
    exists i | 0 <= i < |current| :: current[i] in existing
  }

  function Renamed(cfg: Config, c: Channel, id: string): Channel
    requires id in cfg.requested
  {
    Channel(id, if cfg.requested[id] != "" then [cfg.requested[id]] else c.names)
  }

  lemma {:induction false} FirstRequestedIs(cfg: Config, ids: seq<string>)
    ensures FirstRequested(cfg, ids).Some? ==>
        FirstRequested(cfg, ids).value in cfg.requested && FirstRequested(cfg, ids).value in ids
    ensures FirstRequested(cfg, ids).None? <==> forall id | id in ids :: id !in cfg.requested
  {
    if ids != [] {
      FirstRequestedIs(cfg, ids[1..]);
    }
  }

  /** `processChannel`, and the encoding of what it allows. */
  function TakeChannel(cfg: Config, g: Guide, c: Channel, url: string): Guide {
    FirstRequestedIs(cfg, Candidates(cfg, c));
    match Pick(cfg, c)
    case None => g
    case Some(id) =>
      var key := cfg.hash(c.id + url);
      if id in g.added then
        if NamesMatch(c.names, g.added[id]) then g.(mapping := g.mapping[key := id]) else g
      else
        Guide(g.added[id := c.names], g.mapping[key := id], g.programmes, g.out + [ChannelElement(Renamed(cfg, c, id))])
  }

  // ---------- Programmes ----------

  function DedupKey(p: Programme): string {
    p.channel + (if p.start.Some? then p.start.value else "") + p.id
  }

  /** `processProgramme`, and the encoding of what it allows. */
  function TakeProgramme(cfg: Config, g: Guide, p: Programme, url: string): Guide {
    var key := cfg.hash(p.channel + url);
    if key !in g.mapping then g
    else
      var mapped := p.(channel := g.mapping[key]);
      if DedupKey(mapped) in g.programmes then g
      else g.(programmes := g.programmes + {DedupKey(mapped)}, out := g.out + [ProgrammeElement(mapped)])
  }

  class Streamer {
    const cfg: Config
    var addedChannels: map<string, seq<string>>
    var channelIDMapping: map<string, string>
    var addedProgrammes: set<string>
    var out: seq<Element>

    function G(): Guide
      reads this
    {
      Guide(addedChannels, channelIDMapping, addedProgrammes, out)
    }

    constructor (cfg: Config)
      ensures G() == EMPTY && this.cfg == cfg
    {
      this.cfg := cfg;
      addedChannels, channelIDMapping, addedProgrammes, out := map[], map[], {}, [];
    }

    method ChannelNamesMatch(current: seq<string>, existing: seq<string>) returns (matches: bool)
      ensures matches == NamesMatch(current, existing)
    {
      for i := 0 to |current|
        invariant forall j | 0 <= j < i :: current[j] !in existing
      {
        if current[i] in existing {
          return true;
        }
      }
      return false;
    }

    method ProcessChannel(c: Channel, url: string)
      modifies this
      ensures G() == TakeChannel(cfg, old(G()), c, url)
    {
      var compositeKey := cfg.hash(c.id + url);
      var candidates := [c.id];
      for i := 0 to |c.names|
        invariant candidates + seq(|c.names| - i, j requires 0 <= j < |c.names| - i => cfg.hash(c.names[i + j]))
            == Candidates(cfg, c)
      {
        candidates := candidates + [cfg.hash(c.names[i])];
      }
      assert candidates == Candidates(cfg, c);
      for i := 0 to |candidates|
        invariant FirstRequested(cfg, candidates[i..]) == Pick(cfg, c)
        invariant G() == old(G())
      {
        var id := candidates[i];
        assert candidates[i..][0] == id && candidates[i..][1..] == candidates[i + 1..];
        if id in cfg.requested {
          if id in addedChannels {
            var matches := ChannelNamesMatch(c.names, addedChannels[id]);
            if matches {
              channelIDMapping := channelIDMapping[compositeKey := id];
            }
            return;
          }
          channelIDMapping := channelIDMapping[compositeKey := id];
          addedChannels := addedChannels[id := c.names];
          out := out + [ChannelElement(Renamed(cfg, c, id))];
          return;
        }
      }
      assert candidates[|candidates|..] == [];
    }

    method ProcessProgramme(p: Programme, url: string)
      modifies this
      ensures G() == TakeProgramme(cfg, old(G()), p, url)
    {
      var compositeKey := cfg.hash(p.channel + url);
      if compositeKey !in channelIDMapping {
        return;
      }
      var mapped := p.(channel := channelIDMapping[compositeKey]);
      var key := DedupKey(mapped);
      if key in addedProgrammes {
        return;
      }
      addedProgrammes := addedProgrammes + {key};
      out := out + [ProgrammeElement(mapped)];
    }
  }

  // ---------- Integrity ----------

  /** Element `i` is the one channel with its id, which is asked for. */
  ghost predicate ChannelAt(cfg: Config, out: seq<Element>, i: nat) {
    i < |out| && out[i].ChannelElement? ==>
      out[i].channel.id in cfg.requested
      && forall j | 0 <= j < i && out[j].ChannelElement? :: out[j].channel.id != out[i].channel.id
  }

  /** Element `i` is a programme of a channel before it, alone with its key. */
  ghost predicate ProgrammeAt(out: seq<Element>, i: nat) {
    i < |out| && out[i].ProgrammeElement? ==>
      (exists j :: 0 <= j < i && IsChannel(out[j], out[i].programme.channel))
      && forall j | 0 <= j < i && out[j].ProgrammeElement? :: DedupKey(out[j].programme) != DedupKey(out[i].programme)
  }

  predicate IsChannel(e: Element, id: string) {
    e.ChannelElement? && e.channel.id == id
  }

  predicate IsProgramme(e: Element, key: string) {
    e.ProgrammeElement? && DedupKey(e.programme) == key
  }

  /** Distinct requested channels, and only programmes of channels already written, without repeats. */
  ghost predicate Integrity(cfg: Config, out: seq<Element>) {
    forall i: nat | i < |out| :: ChannelAt(cfg, out, i) && ProgrammeAt(out, i)
  }

  /** The maps describe what was written. */
  ghost predicate Tracks(g: Guide) {
    && (forall id :: id in g.added <==> exists i :: 0 <= i < |g.out| && IsChannel(g.out[i], id))
    && (forall k <- g.mapping :: g.mapping[k] in g.added)
    && (forall k :: k in g.programmes <==> exists i :: 0 <= i < |g.out| && IsProgramme(g.out[i], k))
  }

  ghost predicate Inv(cfg: Config, g: Guide) {
    Integrity(cfg, g.out) && Tracks(g)
  }
}
