/**
 * The menu controller's update step (src/main_menu.rs): it drains the frame's queue of UI
 * messages, and each `StartClicked` requests the move to `Playing`.
 */
module MainMenu {
  import opened Wrappers
  import opened States

  /** The UI messages; pressing "Start Game" is the only one. */
  datatype Message = StartClicked

  /** The pending state after handling one message. */
  function Handle(pending: Option<GameState>, m: Message): Option<GameState>
  {
    match m
    case StartClicked => Some(Playing)
  }

  /** The pending state after handling a queue of messages in order. */
  function Drain(pending: Option<GameState>, msgs: seq<Message>): Option<GameState>
    decreases |msgs|
  {
    if msgs == [] then pending else Drain(Handle(pending, msgs[0]), msgs[1..])
  }

  /** `k` copies of the start message. */
  function StartClicks(k: nat): seq<Message>
  {
    seq(k, j => StartClicked)
  }

  /** `update`: drains the queue into the `NextState` resource. */
  method Update(messages: seq<Message>, next: NextState)
    modifies next
    ensures next.pending == Drain(old(next.pending), messages)
    ensures messages == [] ==> next.pending == old(next.pending)
    ensures messages != [] ==> next.pending == Some(Playing)
  {
    ghost var start := next.pending;
    for i := 0 to |messages|
      invariant Drain(next.pending, messages[i..]) == Drain(start, messages)
    {
      assert messages[i..][1..] == messages[i + 1..];
      match messages[i]
      case StartClicked =>
        next.Set(Playing);
    }
    assert messages[|messages|..] == [];
    if messages != [] {
      DrainStarts(start, messages);
    }
  }

  /** A queue with at least one message requests `Playing`, whatever was pending before. */
  lemma {:induction false} DrainStarts(pending: Option<GameState>, msgs: seq<Message>)
    requires msgs != []
    ensures Drain(pending, msgs) == Some(Playing)
    decreases |msgs|
  {
    if |msgs| > 1 {
      DrainStarts(Handle(pending, msgs[0]), msgs[1..]);
    }
  }

  /** Handling `k >= 1` start messages has the effect of handling one. */
  lemma DrainIdempotent(pending: Option<GameState>, k: nat)
    requires k >= 1
    ensures Drain(pending, StartClicks(k)) == Drain(pending, [StartClicked])
  {
    DrainStarts(pending, StartClicks(k));
    DrainStarts(pending, [StartClicked]);
  }

  /** Every message drives the same transition: only the queue's length matters. */
  lemma {:induction false} DrainOnlyLength(pending: Option<GameState>, a: seq<Message>, b: seq<Message>)
    requires |a| == |b|
    ensures Drain(pending, a) == Drain(pending, b)
    decreases |a|
  {
    if a != [] {
      assert a[0] == b[0];
      DrainOnlyLength(Handle(pending, a[0]), a[1..], b[1..]);
    }
  }
}
