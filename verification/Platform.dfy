/** The platform callbacks: anything they may answer is possible, and what they granted is on record. */
module Platform {
  import opened Profile

  datatype WifiLink = LinkPending | LinkReady | LinkFailed

  /** A positive answer. */
  datatype Grant =
    | EthernetUp
    | Preflighted(target: WifiProfile)
    | WatchdogArmed
    | Applied(target: WifiProfile)
    | Connected(target: WifiProfile)
    | NetworkRestored

  class WifiPlatform {
    var willing: bool             // every check passes and every request succeeds
    ghost var granted: seq<Grant> // all positive answers so far, oldest first

    constructor (willing: bool)
      ensures this.willing == willing && granted == []
    {
      this.willing := willing;
      granted := [];
    }

    /** Some callback answers; a yes goes on record. */
    method Answer(ghost grant: Grant) returns (ok: bool)
      modifies this`granted
      ensures willing ==> ok
      ensures granted == if ok then old(granted) + [grant] else old(granted)
    {
      ok := *;
      if willing { ok := true; }
      if ok { granted := granted + [grant]; }
    }

    method EthernetReady() returns (ok: bool)
      modifies this`granted
      ensures willing ==> ok
      ensures granted == if ok then old(granted) + [EthernetUp] else old(granted)
    {
      ok := Answer(EthernetUp);
    }

    method ProbeTarget(target: WifiProfile) returns (link: WifiLink)
      modifies this`granted
      ensures willing ==> link == LinkReady
      ensures granted == if link == LinkReady then old(granted) + [Connected(target)] else old(granted)
    {
      var ready := Answer(Connected(target));
      if ready { return LinkReady; }
      var failed := *;
      link := if failed then LinkFailed else LinkPending;
    }

    /** The three checks made before touching anything, in order, stopping at the first failure. */
    method SafetyChecks(target: WifiProfile) returns (ok: bool)
      modifies this`granted
      ensures willing ==> ok
      ensures ok ==> granted == old(granted) + [EthernetUp, Preflighted(target), WatchdogArmed]
    {
      ok := EthernetReady();
      if ok { ok := Answer(Preflighted(target)); }
      if ok { ok := Answer(WatchdogArmed); }
    }
  }
}
