/**
 * The `Stats` facade (src/lib.rs:4-19): two peer-to-window maps, one of ping
 * samples and one of per-byte transmission samples, a window size shared by
 * both, and the reporting peer's own id.
 *
 * The two maps are public `CHashMap`s in the source and callers update an
 * entry by getting it (or inserting an empty `Vec`) and calling `push_lossy`
 * on it. `Record` is that composition, with the window size this `Stats`
 * was built with; the source keeps that field private and never reads it,
 * so using it here assumes callers pass the same size. The maps are plain
 * sequential maps here.
 */
module Statistics {
  import opened Wrappers
  import opened Window
  import opened Reducer
  import opened Reporting

  datatype Store = Pings | Transmissions

  /** The window of `peer`, or the empty window a caller would insert for a new peer. */
  function WindowOf(m: map<string, seq<Duration>>, peer: string): seq<Duration>
  {
    if peer in m then m[peer] else []
  }

  /** No window holds more than `windowSize` samples. */
  ghost predicate WindowsBounded(m: map<string, seq<Duration>>, windowSize: nat)
  {
    forall p :: p in m ==> |m[p]| <= windowSize
  }

  class Stats {
    var pingsToPeers: map<string, seq<Duration>>
    var transmissionsRates: map<string, seq<Duration>>
    const windowSize: nat
    const peerId: string

    /** The bounded-window invariant that updates through `Record` keep. */
    ghost predicate Valid()
      reads this
    {
      WindowsBounded(pingsToPeers, windowSize) && WindowsBounded(transmissionsRates, windowSize)
    }

    function StoreMap(store: Store): map<string, seq<Duration>>
      reads this
    {
      if store == Pings then pingsToPeers else transmissionsRates
    }

    /** `Stats::new`: both maps empty. */
    constructor (windowSize: nat, peerId: string)
      ensures this.windowSize == windowSize && this.peerId == peerId
      ensures pingsToPeers == map[] && transmissionsRates == map[]
      ensures Valid()
    {
      this.windowSize := windowSize;
      this.peerId := peerId;
      pingsToPeers := map[];
      transmissionsRates := map[];
    }

    /**
     * Adds one sample for `peer` to the chosen map: inserts an empty window for
     * a new peer, evicts the oldest sample when the window is full, then
     * appends. Only that peer's window of that map changes. `Vec::remove(0)`
     * panics when the window size is zero and the window is empty.
     */
    method Record(store: Store, peer: string, sample: Duration)
      requires windowSize >= 1 || |WindowOf(StoreMap(store), peer)| >= 1
      modifies this
      ensures StoreMap(store)
           == old(StoreMap(store))[peer := PushLossy(WindowOf(old(StoreMap(store)), peer), sample, windowSize)]
      ensures store == Pings ==> transmissionsRates == old(transmissionsRates)
      ensures store == Transmissions ==> pingsToPeers == old(pingsToPeers)
      ensures old(Valid()) ==> Valid()
    {
      var m := if store == Pings then pingsToPeers else transmissionsRates;
      var window := if peer in m then m[peer] else [];
      if |window| >= windowSize {
        window := window[1..];
      }
      window := window + [sample];
      if store == Pings {
        pingsToPeers := pingsToPeers[peer := window];
      } else {
        transmissionsRates := transmissionsRates[peer := window];
      }
    }

    /**
     * The report `Display` writes, with the two maps iterated in the given
     * orders: the own peer id, then each peer of each map exactly once, with a
     * numeric entry carrying the window's mean exactly when its window is
     * non-empty.
     */
    function Report(pingOrder: seq<string>, transmissionOrder: seq<string>, ops: FloatOps): (r: Reporting.Report)
      reads this
      requires Enumerates(pingOrder, pingsToPeers) && Enumerates(transmissionOrder, transmissionsRates)
      requires SumsFit(pingsToPeers) && SumsFit(transmissionsRates)
      requires IsSquareRoot(ops.sqrt)
      ensures r.selfPeer == peerId
      ensures forall p :: p in pingsToPeers <==> exists i :: 0 <= i < |r.pings| && r.pings[i].peer == p
      ensures forall p :: p in transmissionsRates <==> exists i :: 0 <= i < |r.transmissions| && r.transmissions[i].peer == p
      ensures forall i, j :: 0 <= i < j < |r.pings| ==> r.pings[i].peer != r.pings[j].peer
      ensures forall i, j :: 0 <= i < j < |r.transmissions| ==> r.transmissions[i].peer != r.transmissions[j].peer
      ensures forall i :: 0 <= i < |r.pings| ==>
        (&& r.pings[i].peer in pingsToPeers
         && (r.pings[i].Data? <==> pingsToPeers[r.pings[i].peer] != []))
      ensures forall i :: 0 <= i < |r.transmissions| ==>
        (&& r.transmissions[i].peer in transmissionsRates
         && (r.transmissions[i].Data? <==> transmissionsRates[r.transmissions[i].peer] != []))
    {
      SectionListsEachPeerOnce(pingsToPeers, pingOrder, ops);
      SectionListsEachPeerOnce(transmissionsRates, transmissionOrder, ops);
      BuildReport(peerId, pingsToPeers, pingOrder, transmissionsRates, transmissionOrder, ops)
    }
  }

  /**
   * The end-to-end scenario: a window of size 3 fed 1 s, 3 s, 5 s and 7 s
   * for one peer keeps 3 s, 5 s and 7 s, whose mean is 5 s.
   */
  method EvictionScenario() returns (window: seq<Duration>, mean: Option<Duration>)
    ensures window == [3 * NanosPerSec, 5 * NanosPerSec, 7 * NanosPerSec]
    ensures mean == Some(5 * NanosPerSec)
  {
    var stats := new Stats(3, "self");
    stats.Record(Pings, "A", 1 * NanosPerSec);
    stats.Record(Pings, "A", 3 * NanosPerSec);
    stats.Record(Pings, "A", 5 * NanosPerSec);
    stats.Record(Pings, "A", 7 * NanosPerSec);
    window := stats.pingsToPeers["A"];
    assert window[..2] == [window[0], window[1]] && [window[0], window[1]][..1] == [window[0]];
    assert [window[0]][..0] == [];
    assert Sum([window[0]]) == window[0];
    assert Sum([window[0], window[1]]) == window[0] + window[1];
    assert Sum(window) == 15 * NanosPerSec;
    mean := DurationsMean(window);
  }
}
