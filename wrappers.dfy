/** Optional values: `undefined`/`null` in the TypeScript sources, `Option` in the Rust ones. */
module Wrappers {

  datatype Option<+T> = None | Some(value: T) {

    /** The value, or `default` when there is none (`unwrap_or`, `??`). */
    function GetOr(default: T): T {
      match this
      case Some(v) => v
      case None => default
    }
  }
}
