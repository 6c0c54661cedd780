/**
 * Sequences of key events fed to the controller's handlers, and what the key
 * map holds after them.
 */
module KeyEvents {
  import opened Controls

  /** A key-down or key-up event carrying the event's key name. */
  datatype KeyEvent = KeyDown(name: string) | KeyUp(name: string)

  /** The key map after handling `events` in order, starting from `keys`.
   *  No event adds or removes a key. */
  function Replay(keys: map<string, bool>, events: seq<KeyEvent>): (r: map<string, bool>)
    ensures r.Keys == keys.Keys
    decreases |events|
  {
    if events == [] then keys
    else Replay(SetKey(keys, events[0].name, events[0].KeyDown?), events[1..])
  }

  /** Whether key `k` is held after `events`: the kind of the last event
   *  naming it, in any letter case, or `initial` when none does. */
  function LastState(k: string, events: seq<KeyEvent>, initial: bool): bool
    decreases |events|
  {
    if events == [] then initial
    else
      var last := events[|events| - 1];
      if Lower(last.name) == k then last.KeyDown?
      else LastState(k, events[..|events| - 1], initial)
  }

  lemma {:induction false} ReplaySnoc(keys: map<string, bool>, events: seq<KeyEvent>, e: KeyEvent)
    ensures Replay(keys, events + [e]) == SetKey(Replay(keys, events), e.name, e.KeyDown?)
    decreases |events|
  {
    if events == [] {
      assert events + [e] == [e];
    } else {
      assert (events + [e])[0] == events[0];
      assert (events + [e])[1..] == events[1..] + [e];
      ReplaySnoc(SetKey(keys, events[0].name, events[0].KeyDown?), events[1..], e);
    }
  }

  /** After any sequence of events each tracked key reflects the last event
   *  for it, and the map still holds exactly the four tracked keys. */
  lemma {:induction false} ReplayLastEventWins(keys: map<string, bool>, events: seq<KeyEvent>, k: string)
    requires WellFormed(keys) && k in keys
    ensures WellFormed(Replay(keys, events))
    ensures Replay(keys, events)[k] == LastState(k, events, keys[k])
    decreases |events|
  {
    if events != [] {
      var n := |events| - 1;
      assert events == events[..n] + [events[n]];
      ReplaySnoc(keys, events[..n], events[n]);
      ReplayLastEventWins(keys, events[..n], k);
    }
  }
}
