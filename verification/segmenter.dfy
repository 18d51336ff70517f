/**
 The shared object behind one stream key (internal/streampool/segmenter.go):
 an atomic client counter, two channels that are closed at most once, and a
 context. `Signals` is its value; `Segmenter` is the object that is updated in
 place. Every method is one atomic access of the source and is specified by a
 function on `Signals`; the protocol of module `StreamPool` takes its steps with
 the same functions.
 */
module Segmenters {
  import opened Basics

  /** Why `ready` was closed without the stream being usable. */
  datatype StartError = ProcessFailed | ReadyTimeout | ContextCancelled

  datatype Signals = Signals(
    clients: int,                   // clientCount
    empty: bool,                    // emptyChan is closed
    ready: bool,                    // ready is closed
    startErr: Option<StartError>,   // set before ready is closed
    cancelled: bool)                // the segmenter's own context is cancelled
  {
    /** `readyOnce` lets only the first outcome through. */
    function SetReady(err: Option<StartError>): Signals {
      if ready then this else this.(ready := true, startErr := err)
    }

    function AddClient(): Signals {
      this.(clients := clients + 1)
    }

    /** The atomic decrement at the start of `removeClient`. */
    function DropClient(): Signals {
      this.(clients := clients - 1)
    }

    function NotifyEmpty(): Signals {
      this.(empty := true)
    }

    function Cancel(): Signals {
      this.(cancelled := true)
    }

    /** `removeClient`: decrement, and announce emptiness when nobody is left. */
    function RemoveClient(): Signals {
      if DropClient().clients <= 0 then DropClient().NotifyEmpty() else DropClient()
    }

    /** `stop`: cancel the context, then announce emptiness. */
    function Stop(): Signals {
      Cancel().NotifyEmpty()
    }
  }

  /** A new segmenter already counts its creator. */
  const FRESH := Signals(1, false, false, None, false)

  class Segmenter {
    const streamKey: string
    var clientCount: int
    var emptyClosed: bool
    var readyClosed: bool
    var startErr: Option<StartError>
    var cancelled: bool

    function Value(): Signals
      reads this
    {
      Signals(clientCount, emptyClosed, readyClosed, startErr, cancelled)
    }

    constructor (streamKey: string)
      ensures this.streamKey == streamKey
      ensures Value() == FRESH
    {
      this.streamKey := streamKey;
      clientCount := 1;
      emptyClosed, readyClosed, cancelled := false, false, false;
      startErr := None;
    }

    method SetReady(err: Option<StartError>)
      modifies this
      ensures Value() == old(Value()).SetReady(err)
    {
      if !readyClosed {
        startErr := err;
        readyClosed := true;
      }
    }

    method AddClient()
      modifies this
      ensures Value() == old(Value()).AddClient()
    {
      clientCount := clientCount + 1;
    }

    method NotifyEmpty()
      modifies this
      ensures Value() == old(Value()).NotifyEmpty()
    {
      if !emptyClosed {
        emptyClosed := true;
      }
    }

    method RemoveClient()
      modifies this
      ensures Value() == old(Value()).RemoveClient()
    {
      clientCount := clientCount - 1;
      if clientCount <= 0 {
        NotifyEmpty();
      }
    }

    method Stop()
      modifies this
      ensures Value() == old(Value()).Stop()
    {
      cancelled := true;
      NotifyEmpty();
    }
  }

  /**
   The stream handed to a client (internal/streampool/client_reader.go): its
   first `Close` deregisters the client, every later one does nothing.
   */
  class ClientReader {
    const seg: Segmenter
    var closed: bool   // the sync.Once has fired

    constructor (seg: Segmenter)
      ensures this.seg == seg && !closed
    {
      this.seg := seg;
      closed := false;
    }

    method Close()
      modifies this, seg
      ensures closed
      ensures seg.Value() == if old(closed) then old(seg.Value()) else old(seg.Value()).RemoveClient()
    {
      if !closed {
        closed := true;
        seg.RemoveClient();
      }
    }
  }

  /** The value after `n` departures. */
  function Departures(s: Signals, n: nat): Signals {
    if n == 0 then s else Departures(s, n - 1).RemoveClient()
  }

  /**
   Emptiness is announced by exactly the departure that empties the segmenter:
   with `k` clients registered and the channel open, it is closed after `n`
   departures if and only if `n >= k`.
   */
  lemma {:induction false} EmptyExactlyAfterLastDeparture(s: Signals, n: nat)
    requires s.clients > 0 && !s.empty
    ensures Departures(s, n).clients == s.clients - n
    ensures Departures(s, n).empty <==> n >= s.clients
    ensures Departures(s, n).ready == s.ready && Departures(s, n).startErr == s.startErr
  {
    if n > 0 {
      EmptyExactlyAfterLastDeparture(s, n - 1);
    }
  }
}
