/**
 Which elements the guide holds, in terms of the sources' own fields
 (internal/listing/xmltv/streamer.go:166-240).
 */
module GuideContents {
  import opened Basics
  import opened Guides
  import opened GuideIntegrity

  // ---------- Channels ----------

  /** The i-th name is the first whose hash is asked for. */
  ghost predicate IsFirstAsked(cfg: Config, names: seq<string>, i: nat) {
    i < |names| && cfg.hash(names[i]) in cfg.requested && forall j | 0 <= j < i :: cfg.hash(names[j]) !in cfg.requested
  }

  lemma {:induction false} FirstAt(cfg: Config, ids: seq<string>, k: nat)
    requires k < |ids| && ids[k] in cfg.requested && forall j | 0 <= j < k :: ids[j] !in cfg.requested
    ensures FirstRequested(cfg, ids) == Some(ids[k])
    decreases k
  {
    if k > 0 {
      FirstAt(cfg, ids[1..], k - 1);
    }
  }

  lemma CandidatesAre(cfg: Config, c: Channel)
    ensures var ids := Candidates(cfg, c);
      |ids| == |c.names| + 1 && ids[0] == c.id && forall i | 0 <= i < |c.names| :: ids[i + 1] == cfg.hash(c.names[i])
  {
  }

  lemma PickByName(cfg: Config, c: Channel, i: nat)
    requires c.id !in cfg.requested && IsFirstAsked(cfg, c.names, i)
    ensures Pick(cfg, c) == Some(cfg.hash(c.names[i]))
  {
    CandidatesAre(cfg, c);
    var ids := Candidates(cfg, c);
    assert forall j | 1 <= j < i + 1 :: ids[j] == cfg.hash(c.names[j - 1]);
    FirstAt(cfg, ids, i + 1);
  }

  lemma PickNone(cfg: Config, c: Channel)
    requires c.id !in cfg.requested && forall i | 0 <= i < |c.names| :: cfg.hash(c.names[i]) !in cfg.requested
    ensures Pick(cfg, c) == None
  {
    CandidatesAre(cfg, c);
    var ids := Candidates(cfg, c);
    FirstRequestedIs(cfg, ids);
    assert forall k | 1 <= k < |ids| :: ids[k] == cfg.hash(c.names[k - 1]);
    assert forall id | id in ids :: id !in cfg.requested;
  }

  /** The id picked: the channel's own if it is asked for, else the hash of the first name for which that is. */
  lemma PickIs(cfg: Config, c: Channel)
    ensures c.id in cfg.requested ==> Pick(cfg, c) == Some(c.id)
    ensures c.id !in cfg.requested ==>
      forall i: nat | IsFirstAsked(cfg, c.names, i) :: Pick(cfg, c) == Some(cfg.hash(c.names[i]))
    ensures c.id !in cfg.requested && (forall i | 0 <= i < |c.names| :: cfg.hash(c.names[i]) !in cfg.requested) ==>
      Pick(cfg, c) == None
  {
    if c.id in cfg.requested {
      CandidatesAre(cfg, c);
    } else {
      forall i: nat | IsFirstAsked(cfg, c.names, i) ensures Pick(cfg, c) == Some(cfg.hash(c.names[i])) {
        PickByName(cfg, c, i);
      }
      if forall i | 0 <= i < |c.names| :: cfg.hash(c.names[i]) !in cfg.requested {
        PickNone(cfg, c);
      }
    }
  }

  /**
   The n-th channel element is written exactly if it picks an id that none before it picks, and then under
   that id, with the name asked for or else its own names.
   */
  lemma ChannelWrittenIff(cfg: Config, cs: seq<(Channel, string)>, n: nat)
    requires n < |cs|
    ensures var id := Pick(cfg, cs[n].0);
      FoldChannels(cfg, EMPTY, cs[..n + 1]).out == FoldChannels(cfg, EMPTY, cs[..n]).out
        + if id.Some? && id.value in cfg.requested && forall j | 0 <= j < n :: Pick(cfg, cs[j].0) != id
          then [ChannelElement(Channel(id.value,
                  if cfg.requested[id.value] == "" then cs[n].0.names else [cfg.requested[id.value]]))]
          else []
  {
    ChannelsClosedForm(cfg, cs[..n]);
    FirstRequestedIs(cfg, Candidates(cfg, cs[n].0));
    assert cs[..n + 1][..n] == cs[..n];
    assert forall j | 0 <= j < n :: cs[..n][j] == cs[j];
  }

  /** Whether an element counts as the same channel as the first of its id: they share a name. */
  lemma NamesMatchIs(current: seq<string>, existing: seq<string>)
    ensures NamesMatch(current, existing) <==> exists name | name in current :: name in existing
  {
    if name :| name in current && name in existing {
      var i :| 0 <= i < |current| && current[i] == name;
    }
  }

  // ---------- Programmes ----------

  /** Among programmes of one channel with equal ids, those with the same start and no others count as repeated. */
  lemma SameKeyIffSameStart(p: Programme, q: Programme)
    requires p.channel == q.channel && p.id == q.id && p.start.Some? && q.start.Some?
    ensures DedupKey(p) == DedupKey(q) <==> p.start.value == q.start.value
  {
    var a, b := p.channel + p.start.value, q.channel + q.start.value;
    if DedupKey(p) == DedupKey(q) {
      var k := |DedupKey(p)| - |p.id|;
      assert DedupKey(p) == a + p.id && DedupKey(q) == b + q.id;
      assert a == DedupKey(p)[..k] == DedupKey(q)[..k] == b;
      assert p.start.value == a[|p.channel|..] && q.start.value == b[|q.channel|..];
    }
  }

  /** The id a programme is written with, if its channel is known. */
  function MappedId(cfg: Config, mapping: map<string, string>, p: (Programme, string)): Option<string> {
    var key := cfg.hash(p.0.channel + p.1);
    if key in mapping then Some(mapping[key]) else None
  }

  function StartText(p: Programme): string {
    match p.start
    case None => ""
    case Some(t) => t
  }

  /**
   The n-th programme is written exactly if its channel is known and no earlier one of a known channel has the
   same text of mapped channel, start and id, and then under the mapped id, otherwise as it came.
   */
  lemma ProgrammeWrittenIff(cfg: Config, g: Guide, ps: seq<(Programme, string)>, n: nat)
    requires n < |ps| && g.programmes == {}
    ensures var id := MappedId(cfg, g.mapping, ps[n]);
      FoldProgrammes(cfg, g, ps[..n + 1]).out == FoldProgrammes(cfg, g, ps[..n]).out
        + if id.Some? && forall j | 0 <= j < n && MappedId(cfg, g.mapping, ps[j]).Some? ::
               MappedId(cfg, g.mapping, ps[j]).value + StartText(ps[j].0) + ps[j].0.id
               != id.value + StartText(ps[n].0) + ps[n].0.id
          then [ProgrammeElement(Programme(id.value, ps[n].0.start, ps[n].0.id))]
          else []
  {
    ProgrammesClosedForm(cfg, g, ps[..n]);
    assert ps[..n + 1][..n] == ps[..n];
    assert forall j | 0 <= j < n :: ps[..n][j] == ps[j];
    forall j | 0 <= j < |ps|
      ensures Mapped(cfg, g.mapping, ps[j]).Some? <==> MappedId(cfg, g.mapping, ps[j]).Some?
      ensures Mapped(cfg, g.mapping, ps[j]).Some? ==>
        DedupKey(Mapped(cfg, g.mapping, ps[j]).value)
        == MappedId(cfg, g.mapping, ps[j]).value + StartText(ps[j].0) + ps[j].0.id
    {
    }
  }
}
