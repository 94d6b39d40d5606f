/**
 * The application state shared by the menu and the play controller (src/main.rs),
 * and the host engine's `NextState` resource through which systems request a transition.
 */
module States {
  import opened Wrappers

  /** The two states of the game; `MainMenu` is the default. */
  datatype GameState = MainMenu | Playing

  /** The state the application starts in (`#[default]`). */
  const InitialState: GameState := MainMenu

  /** The one state a transition out of `s` can lead to. */
  function Other(s: GameState): (t: GameState)
    ensures t != s
  {
    match s
    case MainMenu => Playing
    case Playing => MainMenu
  }

  /**
   * The `NextState<GameState>` resource: `pending` is the transition a system asked for in
   * this frame, taken by the engine at the start of the next frame.
   */
  class NextState {
    var pending: Option<GameState>

    constructor ()
      ensures pending == None
    {
      pending := None;
    }

    /** `NextState::set`: a later request in the same frame overrides an earlier one. */
    method Set(s: GameState)
      modifies this
      ensures pending == Some(s)
    {
      pending := Some(s);
    }
  }
}
