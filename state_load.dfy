/**
 * The second copy of the loading screen (`state::load_state`): the same
 * `AssetLoadState` bookkeeping and the same `on_load_update`, started with
 * two pending handles, the tiles image and then the tilemap shader. The
 * update is the one of `AssetLoad`; what differs is the start and what it
 * leads to.
 */
module StateLoad {
  import opened AssetLoad

  /** `on_load_enter`: the tiles image, then the tilemap shader, pending; nothing loaded. */
  method OnLoadEnter(tilesImage: AssetHandle, tilemapShader: AssetHandle) returns (state: AssetLoadState)
    ensures fresh(state)
    ensures state.handles == [tilesImage, tilemapShader]
    ensures state.loadedHandles == []
  {
    state := new AssetLoadState([tilesImage, tilemapShader]);
  }

  /**
   * The first update after entering: a loaded handle moves across, a
   * handle in any other state stays pending; when both load in the same
   * update the shader is pushed first, because the snapshot is walked from
   * the back.
   */
  lemma FirstUpdate(tilesImage: AssetHandle, tilemapShader: AssetHandle, status: StatusOf)
    ensures var imageDone, shaderDone := status(tilesImage) == Loaded, status(tilemapShader) == Loaded;
      Pending([tilesImage, tilemapShader], status)
        == (if imageDone then [] else [tilesImage]) + (if shaderDone then [] else [tilemapShader])
      && Reversed(Ready([tilesImage, tilemapShader], status))
        == (if shaderDone then [tilemapShader] else []) + (if imageDone then [tilesImage] else [])
  {
  }

  /**
   * Once both handles have loaded, the game state is entered on the update
   * after: the first update empties the pending list, the second sees it
   * empty. A handle that never loads keeps the state in loading for good.
   */
  lemma TwoHandleOutcome(tilesImage: AssetHandle, tilemapShader: AssetHandle, status: StatusOf, updates: nat)
    ensures status(tilesImage) == Loaded && status(tilemapShader) == Loaded
      ==> Pending([tilesImage, tilemapShader], status) == []
    ensures status(tilesImage) != Loaded || status(tilemapShader) != Loaded
      ==> Repeat([tilesImage, tilemapShader], status, updates) != []
  {
    FirstUpdate(tilesImage, tilemapShader, status);
    if status(tilesImage) != Loaded {
      FailedBlocksGame([tilesImage, tilemapShader], status, tilesImage, updates);
    } else if status(tilemapShader) != Loaded {
      FailedBlocksGame([tilesImage, tilemapShader], status, tilemapShader, updates);
    }
  }
}
