/** The part of the asset server a loader talks to: the path of the asset being
    loaded, and the loads of further assets it requests. */
module Assets {
  import opened MapRecords

  /** `LoadContext`: `load(path)` records a request for the asset at a project path
      and hands back the handle under which that asset will be stored. */
  class LoadContext {
    /** `asset_path()`: the project path of the file being loaded. */
    const assetPath: string
    /** Every path requested so far, in order. */
    var requests: seq<string>

    constructor(assetPath: string)
      ensures this.assetPath == assetPath && requests == []
    {
      this.assetPath := assetPath;
      requests := [];
    }

    method Load(path: string) returns (h: Handle)
      modifies this
      ensures requests == old(requests) + [path]
      ensures h == Handle(path)
    {
      requests := requests + [path];
      h := Handle(path);
    }
  }
}
