/**
 * The result list of the QML browser (`ui/results.py`).
 *
 * The list walks a sorted, single-pass sequence of asset ids. `fetchMore`
 * refills a counter of desired requests to the configured pressure and drains
 * the source: ids without the `tree:tiger:` scheme are skipped for free, every
 * other id is submitted to the resolver and costs one desired request. A failed
 * resolution gives the request back and drains again; a successful one posts
 * an event whose handling appends the presented record to the visible list.
 *
 * The resolver is a log of submissions; the Qt event queue is the sequence
 * `posted`, handled front first by `Event`. Callbacks arrive one at a time.
 */
module Results {
  import opened Wrappers
  import opened TigerIds
  import opened Presentation

  /** In this list a candidate is its own id. */
  function Id(id: string): string { id }

  /** `status.status`: the resolver either found the asset or did not. */
  datatype Status = Success | Failed

  class ResultList {
    const source: seq<string>           // the sorted ids behind `_unfiltered`
    const db: map<string, Asset>        // `_db`
    const pressure: int                 // BITHORDE_PRESSURE, read from the configuration
    var cursor: nat                     // how far `_unfiltered` has been advanced
    var desiredRequests: int            // `_desiredRequests`
    var submitted: seq<Submission<string>>  // every `bithorde_querier(...)` call, in order
    var posted: seq<string>             // asset ids of posted, not yet handled, events
    var items: seq<ViewItem>            // `_list`

    /**
     * The resolver has been asked for exactly the tagged ids among those
     * consumed, in source order: nothing skipped is ever submitted, and no
     * position of the source is submitted twice, failures included.
     */
    ghost predicate Valid()
      reads this
    {
      cursor <= |source| && submitted == Submissions(source, cursor, Id)
    }

    constructor (results: seq<string>, db: map<string, Asset>, pressure: int)
      ensures Valid()
      ensures source == results && this.db == db && this.pressure == pressure
      ensures cursor == 0 && desiredRequests == 0
      ensures submitted == [] && posted == [] && items == []
    {
      source, this.db, this.pressure := results, db, pressure;
      cursor, desiredRequests := 0, 0;
      submitted, posted, items := [], [], [];
    }

    /** `canFetchMore`: the view asks for more while fewer requests are desired than the pressure. */
    predicate CanFetchMore(): (more: bool)
      reads this
      ensures more <==> desiredRequests < pressure
    {
      desiredRequests < pressure
    }

    /**
     * `fetchMore`: refill to full pressure, whatever is still outstanding,
     * and drain. Afterwards the view may ask again exactly when something
     * was submitted.
     */
    method FetchMore()
      requires Valid()
      modifies this
      ensures Valid()
      ensures var r := Pump(source, old(cursor), pressure, Id);
              && cursor == r.next
              && desiredRequests == r.slots
              && submitted == old(submitted) + r.sent
      ensures posted == old(posted) && items == old(items)
      ensures CanFetchMore() <==> |submitted| > |old(submitted)|
    {
      desiredRequests := pressure;
      TryFetch();
      PumpBounds(source, old(cursor), pressure, Id);
    }

    /**
     * `_tryFetch`: drain the source while requests are desired; running out
     * of ids (StopIteration) ends the drain quietly.
     */
    method TryFetch()
      requires Valid()
      modifies this`cursor, this`desiredRequests, this`submitted
      ensures Valid()
      ensures var r := Pump(source, old(cursor), old(desiredRequests), Id);
              && cursor == r.next
              && desiredRequests == r.slots
              && submitted == old(submitted) + r.sent
      ensures old(cursor) == |source| ==> cursor == old(cursor) && submitted == old(submitted)
      ensures posted == old(posted) && items == old(items)
    {
      // `_unfiltered`, `_desiredRequests` and the resolver's log, as the loop advances them
      var next, desired, log := cursor, desiredRequests, submitted;
      while desired > 0
        modifies {}
        invariant Resumes(source, Id, old(cursor), old(desiredRequests), old(submitted), next, desired, log)
        decreases |source| - next
      {
        if next == |source| {
          break;  // StopIteration, swallowed
        }
        var id := source[next];
        ResumesStep(source, Id, old(cursor), old(desiredRequests), old(submitted), next, desired, log);
        next := next + 1;
        if !IsTiger(id) {
          continue;
        }
        log := log + [Submission(Strip(id), id)];  // bithorde_querier(id minus the prefix, _queueAppend, id)
        desired := desired - 1;
      }
      ResumesDone(source, Id, old(cursor), old(desiredRequests), old(submitted), next, desired, log);
      // What was submitted is the tagged part of what was consumed.
      PumpExtendsLog(source, old(cursor), old(desiredRequests), Id);
      cursor, desiredRequests, submitted := next, desired, log;
    }

    /**
     * `_queueAppend`, the resolver's completion callback: a success posts an
     * event carrying the id and keeps its request used; a failure gives the
     * request back. Either way the source is drained again, from the next
     * unconsumed id.
     */
    method QueueAppend(status: Status, assetid: string)
      requires Valid()
      modifies this
      ensures Valid()
      ensures var d := if status == Success then old(desiredRequests) else old(desiredRequests) + 1;
              var r := Pump(source, old(cursor), d, Id);
              && cursor == r.next
              && desiredRequests == r.slots
              && submitted == old(submitted) + r.sent
      ensures posted == old(posted) + (if status == Success then [assetid] else [])
      ensures items == old(items)
    {
      if status == Success {
        posted := posted + [assetid];
      } else {
        desiredRequests := desiredRequests + 1;
      }
      TryFetch();
    }

    /** What `mapObjToView` yields for an id: the database lookup, then presentation. */
    function ViewOf(objid: string): Result<ViewItem, Exception>
    {
      if objid in db then Present(db[objid]) else Err(KeyError(objid))
    }

    /**
     * `mapObjToView`: an id the database lacks raises KeyError; otherwise the
     * record is presented through the first variant it matches.
     */
    method MapObjToView(objid: string) returns (r: Result<ViewItem, Exception>)
      ensures objid !in db ==> r == Err(KeyError(objid))
      ensures objid in db ==> r == Present(db[objid])
      ensures r == ViewOf(objid)
    {
      if objid !in db {
        return Err(KeyError(objid));
      }
      r := MapToView(db[objid]);
    }

    /**
     * `_append`: present the record and add it as the new last row, reported
     * as the row inserted; the earlier rows stay as they were. When
     * presentation raises, the list is left as it was.
     */
    method Append(assetid: string) returns (r: Result<nat, Exception>)
      requires Valid()
      modifies this`items
      ensures Valid()
      ensures ViewOf(assetid).Ok? ==> r == Ok(|old(items)|) && items == old(items) + [ViewOf(assetid).value]
      ensures ViewOf(assetid).Err? ==> r == Err(ViewOf(assetid).error) && items == old(items)
    {
      var pos := |items|;
      var viewItem := MapObjToView(assetid);
      if viewItem.Err? {
        return Err(viewItem.error);
      }
      items := items + [viewItem.value];
      r := Ok(pos);
    }

    /** `event`: handle the oldest posted event by appending its asset. */
    method Event() returns (r: Result<nat, Exception>)
      requires Valid() && posted != []
      modifies this`items, this`posted
      ensures Valid()
      ensures posted == old(posted)[1..]
      ensures var v := ViewOf(old(posted)[0]);
              && (v.Ok? ==> r == Ok(|old(items)|) && items == old(items) + [v.value])
              && (v.Err? ==> r == Err(v.error) && items == old(items))
    {
      var assetid := posted[0];
      posted := posted[1..];
      r := Append(assetid);
    }

    /** `signalChanged`: the rows to report as changed, in order: every row holding `item`. */
    method SignalChanged(item: ViewItem) returns (rows: seq<nat>)
      ensures forall i: nat :: i in rows <==> i < |items| && items[i] == item
      ensures forall j, k :: 0 <= j < k < |rows| ==> rows[j] < rows[k]
    {
      rows := [];
      for i := 0 to |items|
        invariant forall k: nat :: k in rows <==> k < i && items[k] == item
        invariant forall j, k :: 0 <= j < k < |rows| ==> rows[j] < rows[k]
        invariant forall j :: 0 <= j < |rows| ==> rows[j] < i
      {
        if items[i] == item {
          rows := rows + [i];
        }
      }
    }
  }

  /**
   * Refilling does not look at what is still outstanding: with pressure 1 and
   * two tagged ids, a second `fetchMore` before any answer arrives puts two
   * requests in flight. The pressure bounds one drain, not the requests in flight.
   */
  lemma RefillOvershootsPressure()
    ensures var src := ["tree:tiger:A", "tree:tiger:B"];
            var first := Pump(src, 0, 1, Id);
            var second := Pump(src, first.next, 1, Id);
            && first.slots < 1
            && |first.sent| + |second.sent| == 2
  {
    var src := ["tree:tiger:A", "tree:tiger:B"];
    TagThenStrip("A");
    TagThenStrip("B");
    assert src[0] == Prefix + "A" && src[1] == Prefix + "B";
  }
}
