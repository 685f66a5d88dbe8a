/** The numbered snapshots of the remote screen that later diffs refer to. */
module Terminal {
  import opened Basics
  import opened Ssp

  /** A reconstructed remote state; `F` is the screen together with the interpreter's pen. */
  datatype Snapshot<F> = Snapshot(frame: F, echoAck: nat)

  /** How the instructions of a diff change a snapshot, or `None` if they are refused.
      The number of the new state is an input because it marks a changed geometry. */
  type Interpreter<!F> = (Snapshot<F>, seq<byte>, nat) -> Option<Snapshot<F>>

  datatype View<F> = View(states: map<nat, Snapshot<F>>, latest: nat, displayed: F, echoAck: nat)

  datatype Applied<F> = Shown(view: View<F>) | Kept(view: View<F>) | UnavailableBase | Refused

  function InitialView<F>(frame: F): View<F> {
    View(map[0 := Snapshot(frame, 0)], 0, frame, 0)
  }

  function PruneStates<F>(states: map<nat, Snapshot<F>>, throwaway: nat): map<nat, Snapshot<F>> {
    if throwaway > 0 then map n | n in states && n >= throwaway :: states[n] else states
  }

  function ApplyHostState<F>(v: View<F>, interpret: Interpreter<F>, d: ReceivedStateDiff): Applied<F> {
    if d.newNum in v.states then Kept(v)
    else if d.oldNum !in v.states then UnavailableBase
    else
      var next := interpret(v.states[d.oldNum], d.diff, d.newNum);
      if next.None? then Refused
      else
        var v' := v.(states := PruneStates(v.states, d.throwawayNum)[d.newNum := next.value]);
        if d.newNum <= v.latest then Kept(v')
        else Shown(v'.(latest := d.newNum, displayed := next.value.frame,
                       echoAck := Max(v.echoAck, next.value.echoAck)))
  }

  class TerminalView<F> {
    var states: map<nat, Snapshot<F>>
    var latest: nat
    var displayed: F
    var echoAck: nat

    ghost function Value(): View<F>
      reads this
    {
      View(states, latest, displayed, echoAck)
    }

    constructor (frame: F)
      ensures Value() == InitialView(frame)
    {
      states, latest, displayed, echoAck := map[0 := Snapshot(frame, 0)], 0, frame, 0;
    }

    method Apply(interpret: Interpreter<F>, d: ReceivedStateDiff) returns (result: Applied<F>)
      modifies this
      ensures result == ApplyHostState(old(Value()), interpret, d)
      ensures Value() == if result.Shown? || result.Kept? then result.view else old(Value())
    {
      if d.newNum in states {
        return Kept(View(states, latest, displayed, echoAck));
      }
      if d.oldNum !in states {
        return UnavailableBase;
      }
      var next := interpret(states[d.oldNum], d.diff, d.newNum);
      if next.None? {
        return Refused;
      }
      if d.throwawayNum > 0 {
        states := map n | n in states && n >= d.throwawayNum :: states[n];
      }
      states := states[d.newNum := next.value];
      if d.newNum <= latest {
        return Kept(View(states, latest, displayed, echoAck));
      }
      latest, displayed := d.newNum, next.value.frame;
      echoAck := Max(echoAck, next.value.echoAck);
      return Shown(View(states, latest, displayed, echoAck));
    }
  }
}
