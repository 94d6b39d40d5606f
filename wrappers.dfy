/** Optional values, used for Bevy's `NextState<GameState>` (a pending state that may be unset). */
module Wrappers {
  datatype Option<+T> = None | Some(value: T)
}
