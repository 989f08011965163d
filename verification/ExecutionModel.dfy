/** What one execution, its ports and one channel do, as functions on values. */
module ExecutionModel {
  import opened Wrappers
  import opened Dataflow

  datatype State = INITIAL | COMPLETE | SCHEDULED | RUNNING | STOPPED | DONE

  datatype ChannelState = READY | OPEN | CLOSED

  datatype Fault =
    | IllegalTransition(from: State, to: State)
    | NoSuchPort(name: string)
    | MissingInput
    | ChannelNotReady
    | ChannelNotOpen
    | NotDone
    | ResultNotReady

  datatype Port = Port(name: string, result: Option<Table>)

  predicate AllFilled(ports: seq<Port>) {
    forall i :: 0 <= i < |ports| ==> ports[i].result.Some?
  }

  /** The first port with that name, or the number of ports. */
  function FirstNamed(ports: seq<Port>, name: string): (i: nat)
    ensures i <= |ports|
    ensures i < |ports| ==> ports[i].name == name
    ensures forall j :: 0 <= j < i ==> ports[j].name != name
  {
    if ports == [] || ports[0].name == name then 0 else 1 + FirstNamed(ports[1..], name)
  }

  /** The last port with that name, or the number of ports. */
  function LastNamed(ports: seq<Port>, name: string): (i: nat)
    ensures i <= |ports|
    ensures i < |ports| ==> ports[i].name == name && forall j :: i < j < |ports| ==> ports[j].name != name
    ensures i == |ports| ==> forall j :: 0 <= j < |ports| ==> ports[j].name != name
  {
    if ports == [] then 0
    else if ports[|ports| - 1].name == name then |ports| - 1
    else
      var i := LastNamed(ports[..|ports| - 1], name);
      if i == |ports| - 1 then |ports| else i
  }

  function Fill(ports: seq<Port>, i: nat, data: Option<Table>): (r: seq<Port>)
    requires i < |ports|
    ensures |r| == |ports|
  {
    ports[i := ports[i].(result := data)]
  }

  function Emptied(ports: seq<Port>): (r: seq<Port>)
    ensures |r| == |ports|
  {
    seq(|ports|, i requires 0 <= i < |ports| => ports[i].(result := None))
  }

  function Contents(ports: seq<Port>): (r: seq<Table>)
    requires AllFilled(ports)
    ensures |r| == |ports|
  {
    seq(|ports|, i requires 0 <= i < |ports| => ports[i].result.value)
  }

  /** `work` is how many more calls of process() return false; `tasks` counts what schedule() handed over. */
  datatype Exec = Exec(state: State, inPorts: seq<Port>, outPorts: seq<Port>, work: nat, tasks: nat) {
    function SetState(to: State): (r: Result<Exec, Fault>)
      ensures r.Ok? ==> r.value == this.(state := to)
    {
      if state == to then Ok(this)
      else if to == SCHEDULED && state != COMPLETE then Err(IllegalTransition(state, to))
      else if state == DONE || state == STOPPED then Err(IllegalTransition(state, to))
      else Ok(this.(state := to))
    }

    function SetResult(name: string, data: Table): (r: Result<Exec, Fault>)
      ensures r.Ok? ==> |r.value.outPorts| == |outPorts|
    {
      var i := FirstNamed(outPorts, name);
      if i == |outPorts| then Err(NoSuchPort(name))
      else
        var x := this.(outPorts := Fill(outPorts, i, Some(data)));
        if AllFilled(x.outPorts) && x.state != DONE then x.SetState(DONE) else Ok(x)
    }

    function Receive(name: string, data: Option<Table>): Result<Exec, Fault> {
      var i := LastNamed(inPorts, name);
      if i == |inPorts| then Err(NoSuchPort(name))
      else
        var x := this.(inPorts := Fill(inPorts, i, data));
        if AllFilled(x.inPorts) then x.SetState(COMPLETE) else Ok(x)
    }

    function GetResult(name: string): Result<Option<Table>, Fault> {
      var i := FirstNamed(outPorts, name);
      if i == |outPorts| then Err(NoSuchPort(name)) else Ok(outPorts[i].result)
    }

    /** Injects the inputs into the statement, hands it over, then changes state. */
    function Schedule(): Result<Exec, Fault> {
      if !AllFilled(inPorts) then Err(MissingInput)
      else this.(tasks := tasks + 1).SetState(SCHEDULED)
    }

    /** Sets out-ports `j`, `j+1`, ... one after the other. */
    function PublishFrom(e: nat, compute: (nat, nat, seq<Table>) -> Table, ins: seq<Table>, j: nat): Result<Exec, Fault>
      requires j <= |outPorts|
      decreases |outPorts| - j
    {
      if j == |outPorts| then Ok(this)
      else
        var x :- SetResult(outPorts[j].name, compute(e, j, ins));
        x.PublishFrom(e, compute, ins, j + 1)
    }

    function Process(e: nat, compute: (nat, nat, seq<Table>) -> Table): Result<(Exec, bool), Fault> {
      if work > 0 then Ok((this.(work := work - 1), false))
      else if !AllFilled(inPorts) then Err(MissingInput)
      else
        var x :- PublishFrom(e, compute, Contents(inPorts), 0);
        Ok((x, true))
    }

    function Release(): Exec {
      this.(inPorts := Emptied(inPorts), outPorts := Emptied(outPorts))
    }
  }

  predicate Executable(s: State) {
    s == COMPLETE || s == SCHEDULED || s == RUNNING
  }

  ghost predicate Holds(ports: seq<Port>, values: seq<Table>) {
    |ports| == |values| && forall i :: 0 <= i < |ports| ==> ports[i].result == Some(values[i])
  }

  ghost predicate Named(ports: seq<Port>, names: seq<string>) {
    |ports| == |names| && forall i :: 0 <= i < |ports| ==> ports[i].name == names[i]
  }

  /** Publishing every port ends DONE with exactly the computed values, also when DONE is reached before
      the last port because a later one was already preloaded. */
  lemma {:induction false} PublishHolds(x: Exec, e: nat, compute: (nat, nat, seq<Table>) -> Table, ins: seq<Table>,
                                        names: seq<string>, j: nat)
    requires Named(x.outPorts, names) && Distinct(names) && j <= |names|
    requires x.state == SCHEDULED || x.state == DONE
    requires AllFilled(x.outPorts) ==> x.state == DONE
    requires forall i :: 0 <= i < j ==> x.outPorts[i].result == Some(compute(e, i, ins))
    ensures var r := x.PublishFrom(e, compute, ins, j);
      r.Ok? && r.value == x.(state := DONE, outPorts := r.value.outPorts) && Named(r.value.outPorts, names)
      && Holds(r.value.outPorts, seq(|names|, i requires 0 <= i < |names| => compute(e, i, ins)))
    decreases |names| - j
  {
    if j == |names| {
    } else {
      var i := FirstNamed(x.outPorts, names[j]);
      assert i == j;
      var y := x.SetResult(names[j], compute(e, j, ins)).value;
      PublishHolds(y, e, compute, ins, names, j + 1);
    }
  }
}
