/**
 One stream response (internal/server/stream.go): sources are tried in order, the whole
 list at most twice, and error streamers stand in when no source gives anything.
 */
module StreamProxy {
  import opened Basics

  type Bytes = seq<bv8>

  datatype Provider = Missing | NotPlaylist | Playlist(name: string)

  /** What trying a source meets: no permit, another error, or a copy that wrote `written` and may have failed. */
  datatype Attempt = Limit | Failed | Opened(written: Bytes, copyFails: bool)

  /** Who wrote to the response. */
  datatype Producer =
    | Source(attempt: nat, index: nat)
    | LimitStreamer(name: string)
    | UpstreamErrorStreamer(name: string)
    | ErrorPage(status: nat)

  datatype Chunk = Chunk(producer: Producer, bytes: Bytes)

  const MAX_ATTEMPTS: nat := 2

  datatype StreamResult = StreamResult(success: bool, isLimitError: bool, isUpstreamError: bool)

  datatype PassResult = PassResult(
    success: bool, hasLimitError: bool, hasUpstreamError: bool, defaultProvider: Option<string>)

  /** The providers of the sources, and what each attempt at a source meets. */
  datatype World = World(providers: seq<Provider>, meets: (nat, nat) -> Attempt, streamer: Producer -> Bytes)

  // ---------- What the response must be ----------

  predicate IsTried(w: World, i: nat) {
    i < |w.providers| && w.providers[i].Playlist?
  }

  /** Trying source `i` ends the response: something was written, or the copy failed. */
  predicate Wins(w: World, a: nat, i: nat) {
    IsTried(w, i) && w.meets(a, i).Opened? && (w.meets(a, i).written != [] || w.meets(a, i).copyFails)
  }

  predicate MeetsLimit(w: World, a: nat, i: nat) {
    IsTried(w, i) && w.meets(a, i).Limit?
  }

  predicate ComesUpEmpty(w: World, a: nat, i: nat) {
    IsTried(w, i) && w.meets(a, i) == Opened([], false)
  }

  /** `i` is the first source that wins in the pass. */
  ghost predicate IsFirstWin(w: World, a: nat, i: nat) {
    Wins(w, a, i) && forall j: nat | j < i :: !Wins(w, a, j)
  }

  ghost predicate NoWin(w: World, a: nat) {
    forall i: nat :: !Wins(w, a, i)
  }

  /** The provider of the first source that is a playlist. */
  function FirstPlaylist(providers: seq<Provider>): Option<string> {
    if providers == [] then None
    else if providers[0].Playlist? then Some(providers[0].name)
    else FirstPlaylist(providers[1..])
  }

  /** The producer when neither pass has a win. */
  ghost function Substitute(w: World, a: nat): Producer {
    var name := FirstPlaylist(w.providers);
    if name.Some? && exists i: nat :: MeetsLimit(w, a, i) then LimitStreamer(name.value)
    else if name.Some? && exists i: nat :: ComesUpEmpty(w, a, i) then UpstreamErrorStreamer(name.value)
    else ErrorPage(502)
  }

  class Response {
    var body: seq<Chunk>
    ghost var tries: seq<(nat, nat)>   // attempts at sources, as (pass, index)

    constructor ()
      ensures body == [] && tries == []
    {
      body, tries := [], [];
    }

    /** A write of no bytes leaves no trace. */
    method Write(producer: Producer, bytes: Bytes)
      modifies this`body
      ensures body == if bytes == [] then old(body) else old(body) + [Chunk(producer, bytes)]
    {
      if bytes != [] {
        body := body + [Chunk(producer, bytes)];
      }
    }

    method TryStream(w: World, a: nat, i: nat) returns (r: StreamResult)
      requires IsTried(w, i)
      modifies this
      ensures tries == old(tries) + [(a, i)]
      ensures body ==
        if Wins(w, a, i) && w.meets(a, i).written != []
        then old(body) + [Chunk(Source(a, i), w.meets(a, i).written)] else old(body)
      ensures r == StreamResult(Wins(w, a, i), MeetsLimit(w, a, i), ComesUpEmpty(w, a, i))
    {
      tries := tries + [(a, i)];
      match w.meets(a, i) {
        case Limit => return StreamResult(false, true, false);
        case Failed => return StreamResult(false, false, false);
        case Opened(written, copyFails) =>
          Write(Source(a, i), written);
          if !copyFails && |written| == 0 {
            return StreamResult(false, false, true);
          }
          return StreamResult(true, false, false);
      }
    }

    /** One pass over the sources. */
    method TryAllStreams(w: World, a: nat) returns (r: PassResult, ghost k: nat)
      modifies this
      ensures r.success <==> exists i: nat :: Wins(w, a, i)
      ensures r.success ==> exists i: nat :: IsFirstWin(w, a, i) && body == AddedBy(w, a, i, old(body))
      ensures !r.success ==> body == old(body) && r.defaultProvider == FirstPlaylist(w.providers)
      ensures !r.success ==> (r.hasLimitError <==> exists i: nat :: MeetsLimit(w, a, i))
      ensures !r.success ==> (r.hasUpstreamError <==> exists i: nat :: ComesUpEmpty(w, a, i))
      ensures k <= |w.providers| && tries == old(tries) + TriesUpTo(w, a, k)
    {
      var hasLimit, hasUpstream, first := false, false, None;
      for i := 0 to |w.providers|
        invariant body == old(body) && tries == old(tries) + TriesUpTo(w, a, i)
        invariant forall j: nat | j < i :: !Wins(w, a, j)
        invariant hasLimit <==> exists j: nat :: j < i && MeetsLimit(w, a, j)
        invariant hasUpstream <==> exists j: nat :: j < i && ComesUpEmpty(w, a, j)
        invariant FirstPlaylist(w.providers) == if first.Some? then first else FirstPlaylist(w.providers[i..])
      {
        assert w.providers[i..][1..] == w.providers[i + 1..];
        if !w.providers[i].Playlist? {
          continue;
        }
        if first.None? {
          first := Some(w.providers[i].name);
        }
        var one := TryStream(w, a, i);
        if one.success {
          assert IsFirstWin(w, a, i);
          assert tries == old(tries) + TriesUpTo(w, a, i + 1);
          return PassResult(true, false, false, None), i + 1;
        }
        hasLimit := hasLimit || one.isLimitError;
        hasUpstream := hasUpstream || (!one.isLimitError && one.isUpstreamError);
      }
      return PassResult(false, hasLimit, hasUpstream, first), |w.providers|;
    }

    /** The first win decides, and without one the substitute; `k` and `l` are the sources gone through in each pass. */
    method HandleStreamProxy(w: World, acquired: bool) returns (ghost k: nat, ghost l: nat)
      requires body == [] && tries == []
      modifies this
      ensures !acquired ==> tries == [] && body == Written(w, Refusal(w))
      ensures !acquired ==>
        ComesFrom(w, body, if w.providers != [] && w.providers[0].Playlist? then LimitStreamer(w.providers[0].name)
                           else ErrorPage(503))
      ensures acquired ==> IsAnswer(w, body)
      ensures k <= |w.providers| && l <= |w.providers| && tries == TriesUpTo(w, 0, k) + TriesUpTo(w, 1, l)
    {
      k, l := 0, 0;
      if !acquired {
        if |w.providers| > 0 && w.providers[0].Playlist? {
          Write(LimitStreamer(w.providers[0].name), w.streamer(LimitStreamer(w.providers[0].name)));
          return;
        }
        Write(ErrorPage(503), w.streamer(ErrorPage(503)));
        return;
      }
      var last := PassResult(false, false, false, None);
      for attempt := 0 to MAX_ATTEMPTS
        invariant body == [] && k <= |w.providers| && l <= |w.providers|
        invariant tries == TriesUpTo(w, 0, k) + TriesUpTo(w, 1, l) && (attempt <= 1 ==> l == 0)
            && (attempt == 0 ==> k == 0)
        invariant attempt > 0 ==> NoWin(w, 0)
        invariant attempt > 1 ==> NoWin(w, 1) && last.defaultProvider == FirstPlaylist(w.providers)
        invariant attempt > 1 ==> (last.hasLimitError <==> exists i: nat :: MeetsLimit(w, 1, i))
        invariant attempt > 1 ==> (last.hasUpstreamError <==> exists i: nat :: ComesUpEmpty(w, 1, i))
      {
        ghost var n;
        last, n := TryAllStreams(w, attempt);
        if attempt == 0 {
          k := n;
        } else {
          l := n;
        }
        if last.success {
          return;
        }
      }
      var producer := ErrorPage(502);
      if last.hasLimitError && last.defaultProvider.Some? {
        producer := LimitStreamer(last.defaultProvider.value);
      } else if last.hasUpstreamError && last.defaultProvider.Some? {
        producer := UpstreamErrorStreamer(last.defaultProvider.value);
      }
      Write(producer, w.streamer(producer));
    }
  }

  /** The response after source `i` has won. */
  function AddedBy(w: World, a: nat, i: nat, body: seq<Chunk>): seq<Chunk>
    requires Wins(w, a, i)
  {
    if w.meets(a, i).written == [] then body else body + [Chunk(Source(a, i), w.meets(a, i).written)]
  }

  /** The attempts of a pass at the sources before `k`. */
  function TriesUpTo(w: World, a: nat, k: nat): seq<(nat, nat)>
    requires k <= |w.providers|
  {
    if k == 0 then [] else TriesUpTo(w, a, k - 1) + if IsTried(w, k - 1) then [(a, k - 1)] else []
  }

  /** The body when one producer writes all it has. */
  function Written(w: World, producer: Producer): seq<Chunk> {
    if w.streamer(producer) == [] then [] else [Chunk(producer, w.streamer(producer))]
  }

  /** The producer when the server has no permit for the request. */
  function Refusal(w: World): Producer {
    if IsTried(w, 0) then LimitStreamer(w.providers[0].name) else ErrorPage(503)
  }

  /** The first win of the first pass that has one decides; without a win, the substitute after the second pass. */
  ghost predicate IsAnswer(w: World, body: seq<Chunk>) {
    if exists i: nat :: Wins(w, 0, i) then exists i: nat :: IsFirstWin(w, 0, i) && body == AddedBy(w, 0, i, [])
    else if exists i: nat :: Wins(w, 1, i) then exists i: nat :: IsFirstWin(w, 1, i) && body == AddedBy(w, 1, i, [])
    else body == Written(w, Substitute(w, 1))
  }

  // ---------- One producer, at most two attempts ----------

  /** Everything written to a response has one producer. */
  lemma SingleProducer(w: World, body: seq<Chunk>)
    requires IsAnswer(w, body) || body == Written(w, Refusal(w))
    ensures forall i, j | 0 <= i < |body| && 0 <= j < |body| :: body[i].producer == body[j].producer
    ensures forall i | 0 <= i < |body| :: body[i].producer.Source? ==>
      Wins(w, body[i].producer.attempt, body[i].producer.index) && body[i].producer.attempt < MAX_ATTEMPTS
    ensures IsAnswer(w, body) && (exists i: nat :: Wins(w, 0, i)) ==>
        forall c | c in body :: c.producer.Source? && c.producer.attempt == 0
  {
  }

  lemma {:induction false} TriesAreOnce(w: World, a: nat, k: nat, i: nat)
    requires k <= |w.providers|
    ensures forall t | t in TriesUpTo(w, a, k) :: t.0 == a && t.1 < k && IsTried(w, t.1)
    ensures multiset(TriesUpTo(w, a, k))[(a, i)] == if i < k && IsTried(w, i) then 1 else 0
  {
    if k > 0 {
      TriesAreOnce(w, a, k - 1, i);
      var before := TriesUpTo(w, a, k - 1);
      var last: seq<(nat, nat)> := if IsTried(w, k - 1) then [(a, k - 1)] else [];
      assert multiset(before + last) == multiset(before) + multiset(last);
      assert multiset(last)[(a, i)] == if i == k - 1 && IsTried(w, i) then 1 else 0;
    }
  }

  /** Each source is tried at most once in each pass, hence at most twice. */
  lemma AtMostTwoAttempts(w: World, k: nat, l: nat, i: nat, a: nat)
    requires k <= |w.providers| && l <= |w.providers|
    ensures var m := multiset(TriesUpTo(w, 0, k) + TriesUpTo(w, 1, l));
      m[(a, i)] <= 1 && (a >= MAX_ATTEMPTS || !IsTried(w, i) ==> m[(a, i)] == 0)
  {
    TriesAreOnce(w, 0, k, i);
    TriesAreOnce(w, 1, l, i);
    var first, second := TriesUpTo(w, 0, k), TriesUpTo(w, 1, l);
    assert multiset(first + second) == multiset(first) + multiset(second);
    assert (a, i) in first ==> a == 0 && IsTried(w, i);
    assert (a, i) in second ==> a == 1 && IsTried(w, i);
  }

  /** The body is all one producer has to write. */
  predicate ComesFrom(w: World, body: seq<Chunk>, producer: Producer) {
    body == if w.streamer(producer) == [] then [] else [Chunk(producer, w.streamer(producer))]
  }

  predicate IsFirstPlaylist(providers: seq<Provider>, i: nat) {
    i < |providers| && providers[i].Playlist? && forall j | 0 <= j < i :: !providers[j].Playlist?
  }

  lemma {:induction false} FirstPlaylistIs(providers: seq<Provider>, i: nat)
    requires IsFirstPlaylist(providers, i)
    ensures FirstPlaylist(providers) == Some(providers[i].name)
    decreases i
  {
    if i > 0 {
      FirstPlaylistIs(providers[1..], i - 1);
    }
  }

  lemma {:induction false} NoPlaylist(providers: seq<Provider>)
    requires forall i | 0 <= i < |providers| :: !providers[i].Playlist?
    ensures FirstPlaylist(providers) == None
  {
    if providers != [] {
      NoPlaylist(providers[1..]);
    }
  }

  /**
   Who answers when no source wrote anything and none broke off: the limit streamer of the first playlist if
   the second pass met a limit, else its upstream error streamer if the second pass met an empty stream, else
   the error page.
   */
  lemma AnswerWithoutSource(w: World, body: seq<Chunk>)
    requires IsAnswer(w, body) && NoWin(w, 0) && NoWin(w, 1)
    ensures forall f: nat | IsFirstPlaylist(w.providers, f) ::
      var name := w.providers[f].name;
      if exists i :: 0 <= i < |w.providers| && w.providers[i].Playlist? && w.meets(1, i).Limit?
      then ComesFrom(w, body, LimitStreamer(name))
      else if exists i :: 0 <= i < |w.providers| && w.providers[i].Playlist? && w.meets(1, i) == Opened([], false)
      then ComesFrom(w, body, UpstreamErrorStreamer(name))
      else ComesFrom(w, body, ErrorPage(502))
    ensures (forall i | 0 <= i < |w.providers| :: !w.providers[i].Playlist?) ==> ComesFrom(w, body, ErrorPage(502))
  {
    assert forall i: nat ::
      MeetsLimit(w, 1, i) <==> i < |w.providers| && w.providers[i].Playlist? && w.meets(1, i).Limit?;
    assert forall i: nat ::
      ComesUpEmpty(w, 1, i) <==> i < |w.providers| && w.providers[i].Playlist? && w.meets(1, i) == Opened([], false);
    forall f: nat | IsFirstPlaylist(w.providers, f) ensures FirstPlaylist(w.providers) == Some(w.providers[f].name) {
      FirstPlaylistIs(w.providers, f);
    }
    if forall i | 0 <= i < |w.providers| :: !w.providers[i].Playlist? {
      NoPlaylist(w.providers);
    }
  }

  /** Trying source `i` in pass `a` gives the caller bytes, or a copy that broke off before it gave any. */
  predicate Responds(w: World, a: nat, i: nat) {
    && i < |w.providers| && w.providers[i].Playlist? && w.meets(a, i).Opened?
    && (w.meets(a, i).copyFails || |w.meets(a, i).written| > 0)
  }

  /** The first source that does so in the first pass, else in the second, answers with what it gave and alone. */
  lemma AnswerFromSource(w: World, body: seq<Chunk>, a: nat, i: nat)
    requires IsAnswer(w, body) && a < MAX_ATTEMPTS && Responds(w, a, i)
    requires forall b: nat, j: nat | b < a || (b == a && j < i) :: !Responds(w, b, j)
    ensures body == if |w.meets(a, i).written| == 0 then [] else [Chunk(Source(a, i), w.meets(a, i).written)]
  {
    assert forall b: nat, j: nat :: Responds(w, b, j) <==> Wins(w, b, j);
  }
}
