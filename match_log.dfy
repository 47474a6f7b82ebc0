/**
 * `append_to_file`: the newline-delimited JSON output file, opened in
 * append mode for every write. The file is a sequence of records that only
 * ever grows at its end; the JSON text of a line is not modelled.
 */
module Log {
  import opened Wrappers
  import opened Interception

  /** The records a listener appends for a page's requests, in the order the requests arrive. */
  function Listened(listen: Intercepted -> Option<Record>, traffic: seq<Intercepted>): (r: seq<Record>)
    ensures |r| <= |traffic|
  {
    if traffic == [] then []
    else
      var n := |traffic| - 1;
      Listened(listen, traffic[..n]) + Emitted(listen(traffic[n]))
  }

  /** A listener writes at most one record per request, and exactly the records it decides on. */
  lemma ListenedFromTraffic(listen: Intercepted -> Option<Record>, traffic: seq<Intercepted>)
    ensures |Listened(listen, traffic)| <= |traffic|
    ensures forall r :: r in Listened(listen, traffic) <==>
      exists i :: 0 <= i < |traffic| && listen(traffic[i]) == Some(r)
  {
    forall r
      ensures r in Listened(listen, traffic) <==>
        exists i :: 0 <= i < |traffic| && listen(traffic[i]) == Some(r)
    {
      if r in Listened(listen, traffic) {
        ListenedSource(listen, traffic, r);
      }
      if exists i :: 0 <= i < |traffic| && listen(traffic[i]) == Some(r) {
        var i :| 0 <= i < |traffic| && listen(traffic[i]) == Some(r);
        ListenedHas(listen, traffic, i);
      }
    }
  }

  /** Every record written comes from one of the requests. */
  lemma {:induction false} ListenedSource(listen: Intercepted -> Option<Record>, traffic: seq<Intercepted>, r: Record)
    requires r in Listened(listen, traffic)
    ensures exists i :: 0 <= i < |traffic| && listen(traffic[i]) == Some(r)
  {
    var n := |traffic| - 1;
    if r in Listened(listen, traffic[..n]) {
      ListenedSource(listen, traffic[..n], r);
      var i :| 0 <= i < n && listen(traffic[..n][i]) == Some(r);
      assert traffic[..n][i] == traffic[i];
    } else {
      assert listen(traffic[n]) == Some(r);
    }
  }

  /** Every record the listener decides on for one of the requests is written. */
  lemma {:induction false} ListenedHas(listen: Intercepted -> Option<Record>, traffic: seq<Intercepted>, i: nat)
    requires i < |traffic| && listen(traffic[i]).Some?
    ensures listen(traffic[i]).value in Listened(listen, traffic)
  {
    var n := |traffic| - 1;
    if i < n {
      assert traffic[..n][i] == traffic[i];
      ListenedHas(listen, traffic[..n], i);
    }
  }

  class MatchLog {
    var records: seq<Record>

    /** A log file that already holds `existing` from earlier runs (it is never truncated). */
    constructor (existing: seq<Record>)
      ensures records == existing
    {
      records := existing;
    }

    /** One `f.write(json.dumps(data) + '\n')`: exactly one record at the end, the rest unchanged. */
    method Append(r: Record)
      modifies this
      ensures records == old(records) + [r]
    {
      records := records + [r];
    }
  }
}
