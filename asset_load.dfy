/**
 * The loading screen's bookkeeping (`AssetLoadState`, `on_load_enter`,
 * `on_load_update`): a list of handles still pending and a list of handles
 * already loaded. Each update polls the asset server for every pending
 * handle and moves the loaded ones across; once nothing is pending, the
 * next update leaves the load state for the game.
 *
 * Handles are opaque ids issued by the asset server. What the server
 * reports for a handle is a function `status` from handle to load state,
 * fixed for the duration of one update.
 */
module AssetLoad {

  /** `HandleUntyped`: an opaque id. */
  type AssetHandle = nat

  /** Bevy's `LoadState`. */
  datatype LoadState = NotLoaded | Loading | Loaded | Failed | Unloaded

  /** What `status` reports for every handle during one update. */
  type StatusOf = AssetHandle -> LoadState

  /** `AppState`, as far as loading is concerned. */
  datatype AppState = Load | Game

  /**
   * What an update asks of the engine: `Stay` changes nothing, `EnterGame`
   * removes the `AssetLoadState` resource and sets the next state to `Game`.
   */
  datatype Transition = Stay | EnterGame

  /** The handles of `s` still pending under `status`, in their order. */
  function Pending(s: seq<AssetHandle>, status: StatusOf): (r: seq<AssetHandle>)
    ensures |r| <= |s|
  {
    if s == [] then []
    else (if status(s[0]) == Loaded then [] else [s[0]]) + Pending(s[1..], status)
  }

  /** The handles of `s` that `status` reports loaded, in their order. */
  function Ready(s: seq<AssetHandle>, status: StatusOf): (r: seq<AssetHandle>)
    ensures |r| <= |s|
  {
    if s == [] then []
    else (if status(s[0]) == Loaded then [s[0]] else []) + Ready(s[1..], status)
  }

  /** `s` back to front. */
  function Reversed(s: seq<AssetHandle>): (r: seq<AssetHandle>)
    ensures |r| == |s|
  {
    if s == [] then [] else Reversed(s[1..]) + [s[0]]
  }

  /** `AssetLoadState` without its check timer, which is never ticked. */
  class AssetLoadState {
    var handles: seq<AssetHandle>
    var loadedHandles: seq<AssetHandle>

    constructor (handles: seq<AssetHandle>)
      ensures this.handles == handles && loadedHandles == []
    {
      this.handles := handles;
      loadedHandles := [];
    }
  }

  /**
   * `on_load_enter`: the tiles image and the three shaders are pending and
   * nothing is loaded. The four handles are whatever the asset server issues.
   */
  method OnLoadEnter(tilesImage: AssetHandle, tilemapShader: AssetHandle, lightShader: AssetHandle, worldShader: AssetHandle)
    returns (state: AssetLoadState)
    ensures fresh(state)
    ensures state.handles == [tilesImage, tilemapShader, lightShader, worldShader]
    ensures state.loadedHandles == []
  {
    state := new AssetLoadState([tilesImage, tilemapShader, lightShader, worldShader]);
  }

  /**
   * `on_load_update`. With nothing pending it asks for the game state and
   * touches nothing else. Otherwise it walks a snapshot of the pending list
   * from the back, removing each loaded handle at its snapshot index and
   * pushing it onto the loaded list: the pending list keeps the handles not
   * loaded in their order, and the loaded list gains the loaded ones last
   * first.
   */
  method OnLoadUpdate(state: AssetLoadState, status: StatusOf) returns (t: Transition)
    modifies state
    ensures t == EnterGame <==> old(state.handles) == []
    ensures t == EnterGame ==> state.handles == old(state.handles) && state.loadedHandles == old(state.loadedHandles)
    ensures state.handles == Pending(old(state.handles), status)
    ensures state.loadedHandles == old(state.loadedHandles) + Reversed(Ready(old(state.handles), status))
  {
    if state.handles == [] {
      return EnterGame;
    }
    var current := state.handles;
    ghost var before := state.loadedHandles;
    var i := |current|;
    while i > 0
      invariant 0 <= i <= |current|
      invariant state.handles == current[..i] + Pending(current[i..], status)
      invariant state.loadedHandles == before + Reversed(Ready(current[i..], status))
      decreases i
    {
      i := i - 1;
      SnapshotStep(current, i, status);
      var handle := current[i];
      match status(handle) {
        case NotLoaded =>
        case Loading =>
        case Loaded =>
          assert state.handles[i] == handle;
          state.handles := state.handles[..i] + state.handles[i + 1..];
          state.loadedHandles := state.loadedHandles + [handle];
        case Failed =>
        case Unloaded =>
      }
    }
    assert current[0..] == current;
    return Stay;
  }

  /** One step back through the snapshot: handle `i` joins the processed suffix. */
  lemma SnapshotStep(s: seq<AssetHandle>, i: nat, status: StatusOf)
    requires i < |s|
    ensures s[..i + 1] == s[..i] + [s[i]]
    ensures Pending(s[i..], status) == (if status(s[i]) == Loaded then [] else [s[i]]) + Pending(s[i + 1..], status)
    ensures Reversed(Ready(s[i..], status)) == Reversed(Ready(s[i + 1..], status)) + (if status(s[i]) == Loaded then [s[i]] else [])
  {
    assert s[i..][1..] == s[i + 1..];
    if status(s[i]) == Loaded {
      assert ([s[i]] + Ready(s[i + 1..], status))[1..] == Ready(s[i + 1..], status);
    } else {
      assert [] + Ready(s[i + 1..], status) == Ready(s[i + 1..], status);
    }
  }

  /** Every handle ends up on exactly one side: pending and loaded split the list between them. */
  lemma {:induction false} SplitConserves(s: seq<AssetHandle>, status: StatusOf)
    ensures |Pending(s, status)| + |Ready(s, status)| == |s|
    ensures multiset(Pending(s, status)) + multiset(Ready(s, status)) == multiset(s)
  {
    if s != [] {
      SplitConserves(s[1..], status);
      assert s == [s[0]] + s[1..];
    }
  }

  /** Membership: a handle stays pending exactly when it is not loaded, and moves across exactly when it is. */
  lemma {:induction false} SplitMembers(s: seq<AssetHandle>, status: StatusOf, h: AssetHandle)
    ensures h in Pending(s, status) <==> h in s && status(h) != Loaded
    ensures h in Ready(s, status) <==> h in s && status(h) == Loaded
  {
    if s != [] {
      SplitMembers(s[1..], status, h);
      assert s == [s[0]] + s[1..];
    }
  }

  /** Reversal keeps the elements. */
  lemma {:induction false} ReversedKeeps(s: seq<AssetHandle>)
    ensures multiset(Reversed(s)) == multiset(s)
  {
    if s != [] {
      ReversedKeeps(s[1..]);
      assert s == [s[0]] + s[1..];
    }
  }

  /** Element `k` of the reversal is element `|s| - 1 - k` of the original. */
  lemma {:induction false} ReversedIndex(s: seq<AssetHandle>, k: nat)
    requires k < |s|
    ensures Reversed(s)[k] == s[|s| - 1 - k]
  {
    if k < |s| - 1 {
      ReversedIndex(s[1..], k);
    }
  }

  /**
   * One update conserves the handle count, and the two lists together hold
   * the same handles as before.
   */
  lemma UpdateConserves(handles: seq<AssetHandle>, loaded: seq<AssetHandle>, status: StatusOf)
    ensures |Pending(handles, status)| + |loaded + Reversed(Ready(handles, status))| == |handles| + |loaded|
    ensures multiset(Pending(handles, status)) + multiset(loaded + Reversed(Ready(handles, status))) == multiset(handles) + multiset(loaded)
  {
    SplitConserves(handles, status);
    ReversedKeeps(Ready(handles, status));
  }

  /**
   * A handle that never loads (a failed one, say) stays pending through
   * every update, so the pending list never empties and the game state is
   * never entered.
   */
  lemma {:induction false} FailedBlocksGame(handles: seq<AssetHandle>, status: StatusOf, h: AssetHandle, updates: nat)
    requires h in handles && status(h) != Loaded
    ensures h in Repeat(handles, status, updates) && Repeat(handles, status, updates) != []
  {
    SplitMembers(handles, status, h);
    if updates > 0 {
      FailedBlocksGame(handles, status, h, updates - 1);
      SplitMembers(Repeat(handles, status, updates - 1), status, h);
    }
  }

  /** The pending list after `n` updates under the same `status`. */
  function Repeat(handles: seq<AssetHandle>, status: StatusOf, n: nat): (r: seq<AssetHandle>)
    ensures |r| <= |handles|
  {
    if n == 0 then handles else Pending(Repeat(handles, status, n - 1), status)
  }

  /** When every pending handle reports loaded, one update empties the pending list, so the next update enters the game. */
  lemma {:induction false} AllLoadedEmpties(handles: seq<AssetHandle>, status: StatusOf)
    requires forall h :: h in handles ==> status(h) == Loaded
    ensures Pending(handles, status) == []
  {
    if handles != [] {
      assert handles[0] in handles;
      forall h | h in handles[1..]
        ensures status(h) == Loaded
      {
        assert h in handles;
      }
      AllLoadedEmpties(handles[1..], status);
    }
  }

  /** A second update under an unchanged status finds nothing more to move. */
  lemma {:induction false} PendingSettled(handles: seq<AssetHandle>, status: StatusOf)
    ensures Pending(Pending(handles, status), status) == Pending(handles, status)
    ensures Ready(Pending(handles, status), status) == []
  {
    if handles != [] {
      var rest := Pending(handles[1..], status);
      PendingSettled(handles[1..], status);
      if status(handles[0]) == Loaded {
        assert Pending(handles, status) == rest;
      } else {
        var p := [handles[0]] + rest;
        assert Pending(handles, status) == p;
        assert p[0] == handles[0] && p[1..] == rest;
      }
    }
  }
}
