/** Executions and channels as the objects the query processor works on. */
module QueryExecution {
  import opened Wrappers
  import opened Dataflow
  import opened ExecutionModel

  /** A call on an object does what the function on values says, and throws exactly when it does. */
  ghost predicate Agrees(r: Result<(), Fault>, spec: Result<Exec, Fault>, now: Exec) {
    match spec
    case Ok(x) => r.Ok? && now == x
    case Err(f) => r == Err(f)
  }

  class QueryExecution {
    var state: State
    var inPorts: seq<Port>
    var outPorts: seq<Port>
    var channels: seq<Channel>
    var work: nat
    var tasks: nat

    function Value(): Exec
      reads this
    {
      Exec(state, inPorts, outPorts, work, tasks)
    }

    /** An execution without dependencies is COMPLETE at once; without out-ports it gets the default one. */
    constructor (depNames: seq<string>, outNames: seq<string>, work: nat)
      ensures fresh(this) && channels == []
      ensures Value() == Exec(if depNames == [] then COMPLETE else INITIAL,
                              seq(|depNames|, i requires 0 <= i < |depNames| => Port(depNames[i], None)),
                              if outNames == [] then [Port("", None)]
                              else seq(|outNames|, i requires 0 <= i < |outNames| => Port(outNames[i], None)),
                              work, 0)
    {
      state := if depNames == [] then COMPLETE else INITIAL;
      inPorts := seq(|depNames|, i requires 0 <= i < |depNames| => Port(depNames[i], None));
      outPorts :=
        if outNames == [] then [Port("", None)]
        else seq(|outNames|, i requires 0 <= i < |outNames| => Port(outNames[i], None));
      channels := [];
      this.work := work;
      tasks := 0;
    }

    method AddChannel(channel: Channel)
      modifies this`channels
      ensures channels == old(channels) + [channel]
    {
      channels := channels + [channel];
    }

    method SetState(to: State) returns (r: Result<(), Fault>)
      modifies this`state
      ensures Agrees(r, old(Value()).SetState(to), Value())
      ensures r.Ok? <==> to == old(state) || (old(state) in {INITIAL, COMPLETE, SCHEDULED, RUNNING}
                                              && (to == SCHEDULED ==> old(state) == COMPLETE))
      ensures state == if r.Ok? then to else old(state)
    {
      if state == to {
        return Ok(());
      }
      if to == SCHEDULED && state != COMPLETE {
        return Err(IllegalTransition(state, to));
      }
      if state == DONE || state == STOPPED {
        return Err(IllegalTransition(state, to));
      }
      state := to;
      r := Ok(());
    }

    method SetResult(name: string, data: Table) returns (r: Result<(), Fault>)
      modifies this`state, this`outPorts
      ensures Agrees(r, old(Value()).SetResult(name, data), Value())
    {
      var found := false;
      for i := 0 to |outPorts|
        invariant !found && outPorts == old(outPorts) && i <= FirstNamed(outPorts, name)
      {
        if outPorts[i].name == name {
          outPorts := Fill(outPorts, i, Some(data));
          found := true;
          break;
        }
      }
      if !found {
        return Err(NoSuchPort(name));
      }
      var done := true;
      for i := 0 to |outPorts|
        invariant done <==> forall j :: 0 <= j < i ==> outPorts[j].result.Some?
      {
        done := done && outPorts[i].result.Some?;
      }
      if done && state != DONE {
        r := SetState(DONE);
      } else {
        r := Ok(());
      }
    }

    method Receive(name: string, data: Option<Table>) returns (r: Result<(), Fault>)
      modifies this`state, this`inPorts
      ensures Agrees(r, old(Value()).Receive(name, data), Value())
    {
      var dep: nat := |inPorts|;
      for i := 0 to |inPorts|
        invariant dep >= i ==> dep == |inPorts| && forall j :: 0 <= j < i ==> inPorts[j].name != name
        invariant dep < i ==> inPorts[dep].name == name && forall j :: dep < j < i ==> inPorts[j].name != name
      {
        if inPorts[i].name == name {
          dep := i;
        }
      }
      if dep == |inPorts| {
        return Err(NoSuchPort(name));
      }
      inPorts := Fill(inPorts, dep, data);
      var complete := true;
      for i := 0 to |inPorts|
        invariant complete <==> forall j :: 0 <= j < i ==> inPorts[j].result.Some?
      {
        complete := complete && inPorts[i].result.Some?;
      }
      if complete {
        r := SetState(COMPLETE);
      } else {
        r := Ok(());
      }
    }

    method GetResult(name: string) returns (r: Result<Option<Table>, Fault>)
      ensures r == Value().GetResult(name)
    {
      for i := 0 to |outPorts|
        invariant i <= FirstNamed(outPorts, name)
      {
        if outPorts[i].name == name {
          return Ok(outPorts[i].result);
        }
      }
      return Err(NoSuchPort(name));
    }

    method Schedule() returns (r: Result<(), Fault>)
      modifies this`state, this`tasks
      ensures Agrees(r, old(Value()).Schedule(), Value())
    {
      for i := 0 to |inPorts|
        invariant forall j :: 0 <= j < i ==> inPorts[j].result.Some?
      {
        if inPorts[i].result.None? {
          return Err(MissingInput);
        }
      }
      tasks := tasks + 1;
      r := SetState(SCHEDULED);
    }

    method Process(e: nat, compute: (nat, nat, seq<Table>) -> Table) returns (r: Result<bool, Fault>)
      modifies this`state, this`outPorts, this`work
      ensures match old(Value()).Process(e, compute)
              case Ok(y) => r == Ok(y.1) && Value() == y.0
              case Err(f) => r == Err(f)
    {
      if work > 0 {
        work := work - 1;
        return Ok(false);
      }
      if !AllFilled(inPorts) {
        return Err(MissingInput);
      }
      var ins := Contents(inPorts);
      var j := 0;
      while j < |outPorts|
        invariant j <= |outPorts|
        invariant old(Value()).PublishFrom(e, compute, ins, 0) == Value().PublishFrom(e, compute, ins, j)
        decreases |outPorts| - j
      {
        ghost var before := Value();
        var o := SetResult(outPorts[j].name, compute(e, j, ins));
        if o.Err? {
          return Err(o.fault);
        }
        assert Value() == before.SetResult(before.outPorts[j].name, compute(e, j, ins)).value;
        j := j + 1;
      }
      r := Ok(true);
    }

    method Release()
      modifies this`inPorts, this`outPorts
      ensures Value() == old(Value()).Release()
      ensures |inPorts| == |old(inPorts)| && forall p :: 0 <= p < |inPorts| ==>
        inPorts[p] == Port(old(inPorts)[p].name, None)
      ensures |outPorts| == |old(outPorts)| && forall j :: 0 <= j < |outPorts| ==>
        outPorts[j] == Port(old(outPorts)[j].name, None)
    {
      outPorts := Emptied(outPorts);
      inPorts := Emptied(inPorts);
    }
  }

  class Channel {
    const source: QueryExecution
    const sourcePort: string
    const target: QueryExecution
    const targetPort: string
    var state: ChannelState

    constructor (source: QueryExecution, sourcePort: string, target: QueryExecution, targetPort: string)
      ensures this.source == source && this.sourcePort == sourcePort
      ensures this.target == target && this.targetPort == targetPort && state == READY
    {
      this.source, this.sourcePort, this.target, this.targetPort := source, sourcePort, target, targetPort;
      state := READY;
    }

    method Open() returns (r: Result<(), Fault>)
      modifies this`state
      ensures if old(state) == READY then r.Ok? && state == OPEN else r == Err(ChannelNotReady) && state == old(state)
    {
      if state != READY {
        return Err(ChannelNotReady);
      }
      state := OPEN;
      r := Ok(());
    }

    method Send(data: Option<Table>) returns (r: Result<(), Fault>)
      modifies target`state, target`inPorts
      ensures state != OPEN ==> r == Err(ChannelNotOpen) && target.Value() == old(target.Value())
      ensures state == OPEN ==> Agrees(r, old(target.Value()).Receive(targetPort, data), target.Value())
    {
      if state != OPEN {
        return Err(ChannelNotOpen);
      }
      r := target.Receive(targetPort, data);
    }

    method Close() returns (r: Result<(), Fault>)
      modifies this`state
      ensures if old(state) == OPEN then r.Ok? && state == CLOSED else r == Err(ChannelNotOpen) && state == old(state)
    {
      if state != OPEN {
        return Err(ChannelNotOpen);
      }
      state := CLOSED;
      r := Ok(());
    }
  }
}
