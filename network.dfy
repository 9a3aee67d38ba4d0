/**
 * The network window: from single player, start a server or connect to one
 * (both need a player name); while playing networked, optionally show the
 * simulation's per-subsystem hashes, cached and refreshed every hundredth
 * tick.
 *
 * `start_server`, `start_client`, the simulation's tick and its hash table
 * are external and given as inputs. The hash table is a `BTreeMap`, which
 * is modelled as an association list strictly ascending by subsystem name.
 */
module NetworkWindow {
  import opened Wrappers
  import opened Numerics
  import opened Text

  /** An opaque handle to a running server or client. */
  datatype Handle = Handle(id: nat)

  datatype NetworkState = Singleplayer | Client(client: Handle) | Server(server: Handle)

  /** A `BTreeMap<String, u64>`: entries strictly ascending by name, so each name occurs once. */
  predicate SortedByName(h: seq<(string, u64)>)
  {
    forall i, j :: 0 <= i < j < |h| ==> Less(h[i].0, h[j].0)
  }

  /** In a map ordered by name no name occurs twice. */
  lemma SortedNamesDistinct(h: seq<(string, u64)>, i: nat, j: nat)
    requires SortedByName(h)
    requires i < j < |h|
    ensures h[i].0 != h[j].0
  {
    LessIrreflexive(h[i].0);
  }

  /** The hash cache: the table and the tick it was taken at. */
  datatype HashCache = HashCache(hashes: seq<(string, u64)>, tick: u64)

  /** The cache is refreshed at every hundredth tick, or whenever it is empty. */
  predicate RefreshDue(cache: HashCache, tick: u64)
  {
    tick % 100 == 0 || |cache.hashes| == 0
  }

  /** The cache after one frame with the hash display on. */
  function NextCache(cache: HashCache, tick: u64, simHashes: seq<(string, u64)>): (r: HashCache)
    ensures RefreshDue(cache, tick) ==> r.hashes == simHashes && r.tick == tick
    ensures !RefreshDue(cache, tick) ==> r == cache
  {
    if RefreshDue(cache, tick) then HashCache(simHashes, tick) else cache
  }

  /** Looking again at the same tick of an unchanged simulation gives the same table. */
  lemma NextCacheIdempotent(cache: HashCache, tick: u64, simHashes: seq<(string, u64)>)
    ensures NextCache(NextCache(cache, tick, simHashes), tick, simHashes) == NextCache(cache, tick, simHashes)
  {
  }

  /**
   * Over a run of consecutive ticks with the display on, starting when a
   * refresh is due, the table shown was always taken within the current
   * hundred-tick window: at or after the last multiple of 100, never later
   * than now, so never more than 99 ticks old.
   */
  lemma {:induction false} CacheWithinWindow(cache: HashCache, start: u64, sims: seq<seq<(string, u64)>>)
    requires |sims| > 0
    requires start as int + |sims| <= 0x1_0000_0000_0000_0000
    requires RefreshDue(cache, start)
    ensures var now := start as int + |sims| - 1;
      var last := Run(cache, start, sims);
      now - now % 100 <= last.tick as int <= now && now - (last.tick as int) < 100
    decreases |sims|
  {
    var n := |sims| - 1;
    if n > 0 {
      CacheWithinWindow(cache, start, sims[..n]);
    }
  }

  /** The cache after showing the hashes at ticks `start`, `start + 1`, ... with the tables `sims`. */
  function Run(cache: HashCache, start: u64, sims: seq<seq<(string, u64)>>): HashCache
    requires start as int + |sims| <= 0x1_0000_0000_0000_0000
    decreases |sims|
  {
    if sims == [] then cache
    else
      var n := |sims| - 1;
      NextCache(Run(cache, start, sims[..n]), start + n as u64, sims[n])
  }

  /** What the window persists: only the player name and the address. */
  datatype NetInfoRecord = NetInfoRecord(name: string, ip: string)

  /**
   * What `start_server` or `start_client` hands back: a handle when the
   * server or connection started, and the error text it leaves in the
   * connection info.
   */
  datatype StartResult = StartResult(handle: Option<Handle>, error: string)

  /** The user's input in one frame of the network window. */
  datatype NetworkInput = NetworkInput(
    nameEdit: Option<string>,
    startServerClicked: bool,
    ipEdit: Option<string>,
    connectClicked: bool,
    showHashesClicked: bool)

  class NetworkConnectionInfo {
    var name: string
    var ip: string
    var error: string
    var showHashes: bool
    var hashes: seq<(string, u64)>
    var hashesTick: u64

    ghost predicate Valid()
      reads this
    {
      SortedByName(hashes)
    }

    /** Reading the persisted record back: the skipped fields take their defaults. */
    constructor (rec: NetInfoRecord)
      ensures Valid()
      ensures Persisted() == rec
      ensures error == [] && !showHashes && hashes == [] && hashesTick == 0
    {
      name := rec.name;
      ip := rec.ip;
      error := [];
      showHashes := false;
      hashes := [];
      hashesTick := 0;
    }

    /** Serialisation: `error`, `show_hashes`, `hashes` and `hashes_tick` are skipped. */
    function Persisted(): NetInfoRecord
      reads this
    {
      NetInfoRecord(name, ip)
    }

    function Cache(): HashCache
      reads this
    {
      HashCache(hashes, hashesTick)
    }

    /**
     * One frame of the window. In single player the name is edited first;
     * without a name nothing else is offered. Otherwise the start-server
     * button and then the connect button each try their start call, and a
     * call that returns a handle switches the state. While networked, the
     * hashes are shown. `saved` is the record written to "netinfo" at the
     * start of the frame.
     */
    method Network(state: NetworkState, input: NetworkInput, tick: u64, simHashes: seq<(string, u64)>,
                   startServer: StartResult, startClient: StartResult)
      returns (saved: NetInfoRecord, next: NetworkState, triedServer: bool, triedClient: bool,
               rows: seq<(string, u64)>)
      requires Valid() && SortedByName(simHashes)
      modifies this
      ensures Valid()
      ensures saved == old(Persisted())
      ensures state.Singleplayer? ==>
        && name == input.nameEdit.UnwrapOr(old(name))
        && showHashes == old(showHashes) && Cache() == old(Cache()) && rows == []
        && (name == [] ==> next == state && !triedServer && !triedClient && ip == old(ip) && error == old(error))
        && (name != [] ==> triedServer == input.startServerClicked && triedClient == input.connectClicked)
        && (name != [] ==> ip == input.ipEdit.UnwrapOr(old(ip)))
        && (name != [] ==>
             next == if input.connectClicked && startClient.handle.Some? then Client(startClient.handle.value)
             else if input.startServerClicked && startServer.handle.Some? then Server(startServer.handle.value)
             else state)
        && (name != [] ==>
             error == if input.connectClicked then startClient.error
             else if input.startServerClicked then startServer.error
             else old(error))
      ensures !state.Singleplayer? ==>
        && next == state && !triedServer && !triedClient
        && name == old(name) && ip == old(ip) && error == old(error)
        && showHashes == (old(showHashes) != input.showHashesClicked)
        && (showHashes ==> Cache() == NextCache(old(Cache()), tick, simHashes) && rows == hashes)
        && (!showHashes ==> Cache() == old(Cache()) && rows == [])
    {
      saved := Persisted();
      next, triedServer, triedClient, rows := state, false, false, [];
      match state {
        case Singleplayer =>
          if input.nameEdit.Some? {
            name := input.nameEdit.value;
          }
          if name == [] {
            return;
          }
          if input.startServerClicked {
            triedServer := true;
            error := startServer.error;
            if startServer.handle.Some? {
              next := Server(startServer.handle.value);
            }
          }
          if input.ipEdit.Some? {
            ip := input.ipEdit.value;
          }
          if input.connectClicked {
            triedClient := true;
            error := startClient.error;
            if startClient.handle.Some? {
              next := Client(startClient.handle.value);
            }
          }
        case Client(_) =>
          rows := ShowHashes(input.showHashesClicked, tick, simHashes);
        case Server(_) =>
          rows := ShowHashes(input.showHashesClicked, tick, simHashes);
      }
    }

    /**
     * The hash display: the checkbox, then, when on, the cache refresh and
     * the rows in ascending name order.
     */
    method ShowHashes(toggle: bool, tick: u64, simHashes: seq<(string, u64)>) returns (rows: seq<(string, u64)>)
      requires Valid() && SortedByName(simHashes)
      modifies this
      ensures Valid()
      ensures name == old(name) && ip == old(ip) && error == old(error)
      ensures showHashes == (old(showHashes) != toggle)
      ensures !showHashes ==> hashes == old(hashes) && hashesTick == old(hashesTick) && rows == []
      ensures showHashes && (tick % 100 == 0 || |old(hashes)| == 0) ==> hashes == simHashes && hashesTick == tick
      ensures showHashes && !(tick % 100 == 0 || |old(hashes)| == 0) ==>
        hashes == old(hashes) && hashesTick == old(hashesTick)
      ensures showHashes ==> rows == hashes && SortedByName(rows)
    {
      if toggle {
        showHashes := !showHashes;
      }
      if !showHashes {
        return [];
      }
      if tick % 100 == 0 || |hashes| == 0 {
        hashes := simHashes;
        hashesTick := tick;
      }
      rows := hashes;
    }
  }
}
