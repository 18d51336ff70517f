/**
 The map of segmenters (internal/streampool/segmenter_pool.go) as a class over a map of
 objects. Module `StreamPool` takes the same critical sections as steps, on a map of
 identities; both move the segmenters themselves by the functions on `Segmenters.Signals`.
 */
module SegmenterPools {
  import opened Basics
  import opened Segmenters

  class SegmenterPool {
    var segmenters: map<string, Segmenter>

    constructor ()
      ensures segmenters == map[]
    {
      segmenters := map[];
    }

    /** Distinct keys never share an object. */
    ghost predicate Valid()
      reads this, segmenters.Values
    {
      && (forall k <- segmenters :: segmenters[k].streamKey == k)
      && (forall k, l | k in segmenters && l in segmenters :: segmenters[k] == segmenters[l] ==> k == l)
    }

    /**
     `buildOk` says whether `newSegmenter` succeeds (directory created, command
     parsed); a failure leaves the map alone.
     */
    method GetOrCreate(streamKey: string, buildOk: bool) returns (r: Option<Segmenter>, isNew: bool)
      requires Valid()
      modifies this
      ensures Valid()
      ensures isNew <==> streamKey !in old(segmenters) && buildOk
      ensures r.None? <==> streamKey !in old(segmenters) && !buildOk
      ensures r.Some? && !isNew ==> r.value == old(segmenters)[streamKey] && segmenters == old(segmenters)
      ensures isNew ==> r.Some? && fresh(r.value) && r.value.Value() == FRESH
      ensures isNew ==> segmenters == old(segmenters)[streamKey := r.value]
      ensures r.None? ==> segmenters == old(segmenters)
    {
      if streamKey in segmenters {
        return Some(segmenters[streamKey]), false;
      }
      if !buildOk {
        return None, false;
      }
      var seg := new Segmenter(streamKey);
      segmenters := segmenters[streamKey := seg];
      return Some(seg), true;
    }

    /** Unlinks and stops whatever the key maps to, which need not be the caller's own segmenter. */
    method Remove(streamKey: string)
      requires Valid()
      modifies this, segmenters.Values
      ensures Valid()
      ensures segmenters == old(segmenters) - {streamKey}
      ensures streamKey in old(segmenters) ==>
        old(segmenters)[streamKey].Value() == old(segmenters[streamKey].Value()).Stop()
      ensures forall k | k in old(segmenters) && k != streamKey ::
        old(segmenters)[k].Value() == old(segmenters[k].Value())
    {
      if streamKey in segmenters {
        var seg := segmenters[streamKey];
        segmenters := segmenters - {streamKey};
        seg.Stop();
      }
    }

    /** Swaps in an empty map, then stops every segmenter of the old one in map order, which is arbitrary. */
    method StopAll()
      requires Valid()
      modifies this, segmenters.Values
      ensures segmenters == map[]
      ensures forall k <- old(segmenters) :: old(segmenters)[k].Value() == old(segmenters[k].Value()).Stop()
    {
      var stopped := segmenters;
      segmenters := map[];
      var todo := stopped.Keys;
      while todo != {}
        invariant segmenters == map[] && todo <= stopped.Keys
        invariant forall k <- todo :: stopped[k].Value() == old(stopped[k].Value())
        invariant forall k <- stopped.Keys - todo :: stopped[k].Value() == old(stopped[k].Value()).Stop()
        decreases todo
      {
        var k :| k in todo;
        stopped[k].Stop();
        todo := todo - {k};
      }
    }
  }
}
