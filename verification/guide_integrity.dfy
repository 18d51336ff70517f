/**
 What the merged guide is: referentially sound whatever the sources hold, the first
 channel element for each requested id, and the first programme for each key.
 */
module GuideIntegrity {
  import opened Basics
  import opened Guides

  // ---------- Both operations keep the guide sound ----------

  lemma ChannelAppended(cfg: Config, g: Guide, c: Channel, id: string)
    requires Inv(cfg, g) && id in cfg.requested && id !in g.added
    ensures Integrity(cfg, g.out + [ChannelElement(Renamed(cfg, c, id))])
  {
    var out := g.out + [ChannelElement(Renamed(cfg, c, id))];
    forall i: nat | i < |out| ensures ChannelAt(cfg, out, i) && ProgrammeAt(out, i) {
      if i < |g.out| {
        StillFine(cfg, g.out, out, i);
      } else {
        assert forall j | 0 <= j < i && out[j].ChannelElement? :: IsChannel(g.out[j], out[j].channel.id);
      }
    }
  }

  lemma StillFine(cfg: Config, before: seq<Element>, after: seq<Element>, i: nat)
    requires Integrity(cfg, before) && i < |before| && before <= after
    ensures ChannelAt(cfg, after, i) && ProgrammeAt(after, i)
  {
    assert ChannelAt(cfg, before, i) && ProgrammeAt(before, i);
    if after[i].ProgrammeElement? {
      var j :| 0 <= j < i && IsChannel(before[j], before[i].programme.channel);
      assert IsChannel(after[j], after[i].programme.channel);
    }
  }

  lemma ProgrammeAppended(cfg: Config, g: Guide, p: Programme)
    requires Inv(cfg, g) && p.channel in g.added && DedupKey(p) !in g.programmes
    ensures Integrity(cfg, g.out + [ProgrammeElement(p)])
  {
    var out := g.out + [ProgrammeElement(p)];
    forall i: nat | i < |out| ensures ChannelAt(cfg, out, i) && ProgrammeAt(out, i) {
      if i < |g.out| {
        StillFine(cfg, g.out, out, i);
      } else {
        var j :| 0 <= j < |g.out| && IsChannel(g.out[j], p.channel);
        assert IsChannel(out[j], out[i].programme.channel);
        assert forall j | 0 <= j < i && out[j].ProgrammeElement? :: IsProgramme(g.out[j], DedupKey(out[j].programme));
      }
    }
  }

  /** The maps after one more element. */
  lemma TracksAppended(g: Guide, t: Guide, e: Element)
    requires Tracks(g) && t.out == g.out + [e]
    requires forall id :: id in t.added <==> id in g.added || IsChannel(e, id)
    requires forall k :: k in t.programmes <==> k in g.programmes || IsProgramme(e, k)
    requires forall k <- t.mapping :: t.mapping[k] in t.added
    ensures Tracks(t)
  {
    var n := |g.out|;
    assert t.out[n] == e && forall i | 0 <= i < n :: t.out[i] == g.out[i];
    forall id ensures id in t.added <==> exists i :: 0 <= i < |t.out| && IsChannel(t.out[i], id) {
      if id in g.added {
        var i :| 0 <= i < n && IsChannel(g.out[i], id);
        assert IsChannel(t.out[i], id);
      } else if IsChannel(e, id) {
        assert IsChannel(t.out[n], id);
      }
    }
    forall k ensures k in t.programmes <==> exists i :: 0 <= i < |t.out| && IsProgramme(t.out[i], k) {
      if k in g.programmes {
        var i :| 0 <= i < n && IsProgramme(g.out[i], k);
        assert IsProgramme(t.out[i], k);
      } else if IsProgramme(e, k) {
        assert IsProgramme(t.out[n], k);
      }
    }
  }

  lemma ChannelKeepsInv(cfg: Config, g: Guide, c: Channel, url: string)
    requires Inv(cfg, g)
    ensures Inv(cfg, TakeChannel(cfg, g, c, url))
  {
    FirstRequestedIs(cfg, Candidates(cfg, c));
    if Pick(cfg, c).Some? && Pick(cfg, c).value !in g.added {
      var id := Pick(cfg, c).value;
      ChannelAppended(cfg, g, c, id);
      TracksAppended(g, TakeChannel(cfg, g, c, url), ChannelElement(Renamed(cfg, c, id)));
    }
  }

  lemma ProgrammeKeepsInv(cfg: Config, g: Guide, p: Programme, url: string)
    requires Inv(cfg, g)
    ensures Inv(cfg, TakeProgramme(cfg, g, p, url))
  {
    var key := cfg.hash(p.channel + url);
    if key in g.mapping && DedupKey(p.(channel := g.mapping[key])) !in g.programmes {
      var mapped := p.(channel := g.mapping[key]);
      ProgrammeAppended(cfg, g, mapped);
      TracksAppended(g, TakeProgramme(cfg, g, p, url), ProgrammeElement(mapped));
    }
  }

  // ---------- Whole phases ----------

  function FoldChannels(cfg: Config, g: Guide, cs: seq<(Channel, string)>): Guide {
    if cs == [] then g
    else
      var n := |cs| - 1;
      TakeChannel(cfg, FoldChannels(cfg, g, cs[..n]), cs[n].0, cs[n].1)
  }

  function FoldProgrammes(cfg: Config, g: Guide, ps: seq<(Programme, string)>): Guide {
    if ps == [] then g
    else
      var n := |ps| - 1;
      TakeProgramme(cfg, FoldProgrammes(cfg, g, ps[..n]), ps[n].0, ps[n].1)
  }

  lemma {:induction false} ChannelsKeepInv(cfg: Config, g: Guide, cs: seq<(Channel, string)>)
    requires Inv(cfg, g)
    ensures Inv(cfg, FoldChannels(cfg, g, cs))
  {
    if cs != [] {
      var n := |cs| - 1;
      ChannelsKeepInv(cfg, g, cs[..n]);
      ChannelKeepsInv(cfg, FoldChannels(cfg, g, cs[..n]), cs[n].0, cs[n].1);
    }
  }

  lemma {:induction false} ProgrammesKeepInv(cfg: Config, g: Guide, ps: seq<(Programme, string)>)
    requires Inv(cfg, g)
    ensures Inv(cfg, FoldProgrammes(cfg, g, ps))
  {
    if ps != [] {
      var n := |ps| - 1;
      ProgrammesKeepInv(cfg, g, ps[..n]);
      ProgrammeKeepsInv(cfg, FoldProgrammes(cfg, g, ps[..n]), ps[n].0, ps[n].1);
    }
  }

  /** The merged guide is sound over any sources, whichever hashes collide. */
  lemma GuideIsSound(cfg: Config, cs: seq<(Channel, string)>, ps: seq<(Programme, string)>)
    ensures Integrity(cfg, FoldProgrammes(cfg, FoldChannels(cfg, EMPTY, cs), ps).out)
  {
    ChannelsKeepInv(cfg, EMPTY, cs);
    ProgrammesKeepInv(cfg, FoldChannels(cfg, EMPTY, cs), ps);
  }

  // ---------- Closed forms ----------

  /** The first channel element for each id that is picked. */
  function FirstPicks(cfg: Config, cs: seq<(Channel, string)>): seq<Element> {
    if cs == [] then []
    else
      var n := |cs| - 1;
      FirstRequestedIs(cfg, Candidates(cfg, cs[n].0));
      FirstPicks(cfg, cs[..n])
      + if Pick(cfg, cs[n].0).Some? && !PickedBefore(cfg, cs, n)
        then [ChannelElement(Renamed(cfg, cs[n].0, Pick(cfg, cs[n].0).value))] else []
  }

  predicate PickedBefore(cfg: Config, cs: seq<(Channel, string)>, n: nat)
    requires n < |cs|
  {
    exists j | 0 <= j < n :: Pick(cfg, cs[j].0) == Pick(cfg, cs[n].0)
  }

  lemma {:induction false} ChannelsClosedForm(cfg: Config, cs: seq<(Channel, string)>)
    ensures var g := FoldChannels(cfg, EMPTY, cs);
      && g.out == FirstPicks(cfg, cs) && g.programmes == {}
      && forall id :: id in g.added <==> exists j :: 0 <= j < |cs| && Pick(cfg, cs[j].0) == Some(id)
  {
    if cs != [] {
      var n := |cs| - 1;
      ChannelsClosedForm(cfg, cs[..n]);
      FirstRequestedIs(cfg, Candidates(cfg, cs[n].0));
      var g := FoldChannels(cfg, EMPTY, cs[..n]);
      assert forall j | 0 <= j < n :: cs[..n][j] == cs[j];
      forall id ensures id in TakeChannel(cfg, g, cs[n].0, cs[n].1).added <==>
          id in g.added || Pick(cfg, cs[n].0) == Some(id) {
      }
    }
  }

  /** Element `i` is the first that picks `id`. */
  ghost predicate IsFirstPick(cfg: Config, cs: seq<(Channel, string)>, i: nat, id: string) {
    i < |cs| && Pick(cfg, cs[i].0) == Some(id) && forall h | 0 <= h < i :: Pick(cfg, cs[h].0) != Some(id)
  }

  /** Element `j` is the first for its id or shares a name with the first. */
  ghost predicate Accepted(cfg: Config, cs: seq<(Channel, string)>, j: nat) {
    j < |cs| && Pick(cfg, cs[j].0).Some?
    && exists i: nat :: i <= j && IsFirstPick(cfg, cs, i, Pick(cfg, cs[j].0).value)
                        && (i == j || NamesMatch(cs[j].0.names, cs[i].0.names))
  }

  function SourceKey(cfg: Config, c: (Channel, string)): string {
    cfg.hash(c.0.id + c.1)
  }

  /** Element `j` is the last accepted one with its key. */
  ghost predicate IsLastAccepted(cfg: Config, cs: seq<(Channel, string)>, j: nat) {
    Accepted(cfg, cs, j)
    && forall l: nat | j < l < |cs| && SourceKey(cfg, cs[l]) == SourceKey(cfg, cs[j]) :: !Accepted(cfg, cs, l)
  }

  lemma AcceptedSnoc(cfg: Config, cs: seq<(Channel, string)>, c: (Channel, string), j: nat)
    requires j < |cs|
    ensures Accepted(cfg, cs + [c], j) <==> Accepted(cfg, cs, j)
  {
    var all := cs + [c];
    assert forall i | 0 <= i <= j :: all[i] == cs[i];
    if Accepted(cfg, cs, j) {
      var i: nat :| i <= j && IsFirstPick(cfg, cs, i, Pick(cfg, cs[j].0).value)
          && (i == j || NamesMatch(cs[j].0.names, cs[i].0.names));
      assert IsFirstPick(cfg, all, i, Pick(cfg, cs[j].0).value);
    }
    if Accepted(cfg, all, j) {
      var i: nat :| i <= j && IsFirstPick(cfg, all, i, Pick(cfg, cs[j].0).value)
          && (i == j || NamesMatch(cs[j].0.names, cs[i].0.names));
      assert IsFirstPick(cfg, cs, i, Pick(cfg, cs[j].0).value);
    }
  }

  /** `addedChannels` holds the names of the first element of each id. */
  lemma {:induction false} AddedIsFirst(cfg: Config, cs: seq<(Channel, string)>, i: nat, id: string)
    requires IsFirstPick(cfg, cs, i, id)
    ensures id in FoldChannels(cfg, EMPTY, cs).added && FoldChannels(cfg, EMPTY, cs).added[id] == cs[i].0.names
  {
    var n := |cs| - 1;
    ChannelsClosedForm(cfg, cs[..n]);
    if i < n {
      AddedIsFirst(cfg, cs[..n], i, id);
    }
  }

  lemma {:induction false} FirstPickExists(cfg: Config, cs: seq<(Channel, string)>, j: nat, id: string) returns (i: nat)
    requires j < |cs| && Pick(cfg, cs[j].0) == Some(id)
    ensures i <= j && IsFirstPick(cfg, cs, i, id)
  {
    if h :| 0 <= h < j && Pick(cfg, cs[h].0) == Some(id) {
      i := FirstPickExists(cfg, cs, h, id);
    } else {
      i := j;
    }
  }

  /** The last element changes the mapping exactly when it is accepted. */
  lemma LastElement(cfg: Config, cs: seq<(Channel, string)>, n: nat)
    requires n == |cs| - 1
    ensures var before := FoldChannels(cfg, EMPTY, cs[..n]).mapping;
      FoldChannels(cfg, EMPTY, cs).mapping
      == if Accepted(cfg, cs, n) then before[SourceKey(cfg, cs[n]) := Pick(cfg, cs[n].0).value] else before
  {
    var g := FoldChannels(cfg, EMPTY, cs[..n]);
    FirstRequestedIs(cfg, Candidates(cfg, cs[n].0));
    ChannelsClosedForm(cfg, cs[..n]);
    if Pick(cfg, cs[n].0).Some? {
      var id := Pick(cfg, cs[n].0).value;
      var i := FirstPickExists(cfg, cs, n, id);
      if i < n {
        assert IsFirstPick(cfg, cs[..n], i, id);
        AddedIsFirst(cfg, cs[..n], i, id);
        assert forall l: nat | l <= n && IsFirstPick(cfg, cs, l, id) :: l == i;
      }
    }
  }

  /** Which elements are the last accepted with `key`, with and without the last element. */
  lemma LastAcceptedStep(cfg: Config, cs: seq<(Channel, string)>, n: nat, j: nat, key: string)
    requires n == |cs| - 1 && j < |cs| && SourceKey(cfg, cs[j]) == key
    ensures IsLastAccepted(cfg, cs, j) <==>
      if Accepted(cfg, cs, n) && SourceKey(cfg, cs[n]) == key then j == n
      else j < n && IsLastAccepted(cfg, cs[..n], j)
  {
    assert cs == cs[..n] + [cs[n]];
    forall l: nat | l < n ensures Accepted(cfg, cs, l) <==> Accepted(cfg, cs[..n], l) {
      AcceptedSnoc(cfg, cs[..n], cs[n], l);
    }
    if j < n && IsLastAccepted(cfg, cs[..n], j) && !(Accepted(cfg, cs, n) && SourceKey(cfg, cs[n]) == key) {
      forall l: nat | j < l < |cs| && SourceKey(cfg, cs[l]) == key ensures !Accepted(cfg, cs, l) {
        if l < n {
          assert SourceKey(cfg, cs[..n][l]) == key;
        }
      }
    }
    if j < n && IsLastAccepted(cfg, cs, j) {
      forall l: nat | j < l < n && SourceKey(cfg, cs[..n][l]) == key ensures !Accepted(cfg, cs[..n], l) {
        assert SourceKey(cfg, cs[l]) == key;
      }
    }
  }

  /** The id a key maps to is that of the last accepted element with the key. */
  lemma {:induction false} MappingClosedForm(cfg: Config, cs: seq<(Channel, string)>, key: string)
    ensures var g := FoldChannels(cfg, EMPTY, cs);
      && (key in g.mapping <==> exists j: nat :: j < |cs| && SourceKey(cfg, cs[j]) == key && IsLastAccepted(cfg, cs, j))
      && forall j: nat | j < |cs| && SourceKey(cfg, cs[j]) == key && IsLastAccepted(cfg, cs, j) ::
           key in g.mapping && Some(g.mapping[key]) == Pick(cfg, cs[j].0)
  {
    if cs != [] {
      var n := |cs| - 1;
      MappingClosedForm(cfg, cs[..n], key);
      LastElement(cfg, cs, n);
      forall j: nat | j < |cs| && SourceKey(cfg, cs[j]) == key
        ensures IsLastAccepted(cfg, cs, j) <==>
          if Accepted(cfg, cs, n) && SourceKey(cfg, cs[n]) == key then j == n
          else j < n && IsLastAccepted(cfg, cs[..n], j)
      {
        LastAcceptedStep(cfg, cs, n, j, key);
      }
      assert forall j: nat | j < n :: cs[..n][j] == cs[j];
    }
  }

  /** A programme with its channel under the id it is written with, if it has one. */
  function Mapped(cfg: Config, mapping: map<string, string>, p: (Programme, string)): Option<Programme> {
    var key := cfg.hash(p.0.channel + p.1);
    if key in mapping then Some(p.0.(channel := mapping[key])) else None
  }

  predicate KeyBefore(cfg: Config, mapping: map<string, string>, ps: seq<(Programme, string)>, n: nat)
    requires n < |ps| && Mapped(cfg, mapping, ps[n]).Some?
  {
    exists j | 0 <= j < n :: HasKey(Mapped(cfg, mapping, ps[j]), DedupKey(Mapped(cfg, mapping, ps[n]).value))
  }

  predicate HasKey(p: Option<Programme>, key: string) {
    p.Some? && DedupKey(p.value) == key
  }

  /** The first programme of a known channel for each key. */
  function FirstKeys(cfg: Config, mapping: map<string, string>, ps: seq<(Programme, string)>): seq<Element> {
    if ps == [] then []
    else
      var n := |ps| - 1;
      var mapped := Mapped(cfg, mapping, ps[n]);
      FirstKeys(cfg, mapping, ps[..n])
      + if mapped.Some? && !KeyBefore(cfg, mapping, ps, n) then [ProgrammeElement(mapped.value)] else []
  }

  lemma {:induction false} ProgrammesClosedForm(cfg: Config, g: Guide, ps: seq<(Programme, string)>)
    requires g.programmes == {}
    ensures var t := FoldProgrammes(cfg, g, ps);
      && t.out == g.out + FirstKeys(cfg, g.mapping, ps) && t.mapping == g.mapping && t.added == g.added
      && forall k :: k in t.programmes <==> exists j :: 0 <= j < |ps| && HasKey(Mapped(cfg, g.mapping, ps[j]), k)
  {
    if ps != [] {
      var n := |ps| - 1;
      ProgrammesClosedForm(cfg, g, ps[..n]);
      assert forall j | 0 <= j < n :: ps[..n][j] == ps[j];
      var s := FoldProgrammes(cfg, g, ps[..n]);
      var t := TakeProgramme(cfg, s, ps[n].0, ps[n].1);
      forall k ensures k in t.programmes <==> k in s.programmes || HasKey(Mapped(cfg, g.mapping, ps[n]), k) {
      }
    }
  }
}
