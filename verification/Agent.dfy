/** The node's side of an assignment: taking it on, running it, and reporting. */
module Agent {
  import opened Text
  import opened Tasks
  import opened RouterRuns
  import opened RouterLaws

  /** How a job ends: with its output, with an exception, or cancelled from outside. */
  datatype Ending = Done(output: string) | Raised(error: string) | Killed

  /** The report that the `finally` clause sends. The state it starts from is success,
      and only an exception changes it; a kill leaves it, and leaves the output empty. */
  function ReportOf(order: Order, ending: Ending): Outcome
  {
    match ending
    case Done(output) => Outcome(order.task, order.attempt, true, output)
    case Raised(error) => Outcome(order.task, order.attempt, false, error)
    case Killed => Outcome(order.task, order.attempt, true, "")
  }

  function Busy(order: Order): Outcome
  {
    Outcome(order.task, order.attempt, false, "node busy (race)")
  }

  /** `dict.pop`: the other keys keep their order. */
  function Without(ids: seq<string>, id: string): seq<string>
  {
    if ids == [] then []
    else (if ids[0] == id then [] else [ids[0]]) + Without(ids[1..], id)
  }

  lemma {:induction false} WithoutGone(ids: seq<string>, id: string)
    ensures id !in Without(ids, id) && |Without(ids, id)| <= |ids|
    ensures forall x :: x in Without(ids, id) <==> x in ids && x != id
    ensures (forall j, k :: 0 <= j < k < |ids| ==> ids[j] != ids[k])
            ==> forall j, k :: 0 <= j < k < |Without(ids, id)| ==> Without(ids, id)[j] != Without(ids, id)[k]
  {
    if ids != [] {
      WithoutGone(ids[1..], id);
      var rest := Without(ids[1..], id);
      assert forall k :: 0 <= k < |rest| ==> rest[k] in ids[1..];
    }
  }

  /** And what stays, stays in order. */
  lemma {:induction false} WithoutInOrder(a: seq<string>, b: seq<string>, id: string)
    ensures Without(a + b, id) == Without(a, id) + Without(b, id)
  {
    if a == [] {
      assert a + b == b;
    } else {
      var first, rest := a[0], a[1..];
      assert (a + b)[1..] == rest + b && (a + b)[0] == first;
      WithoutInOrder(rest, b, id);
      var front: seq<string> := if first == id then [] else [first];
      assert Without(a, id) == front + Without(rest, id);
      assert Without(a + b, id) == front + Without(rest + b, id);
    }
  }

  function FirstOf(ids: seq<string>): Option<string>
  {
    if ids == [] then None else Some(ids[0])
  }

  class NodeAgent {
    const slots: int
    var running: seq<string>  // keys of the running jobs, oldest first
    var current: Option<string>

    ghost predicate Valid()
      reads this
    {
      && (forall j, k :: 0 <= j < k < |running| ==> running[j] != running[k])
      && (current.Some? ==> current.value in running)
      && (running != [] ==> |running| <= slots)
    }

    constructor (slots: int)
      ensures Valid() && running == [] && current == None
    {
      this.slots := slots;
      running, current := [], None;
    }

    /** ASSIGN: refused at once when the slots are taken. */
    method Assign(order: Order) returns (refusal: Option<Outcome>)
      requires Valid()
      modifies this`running, this`current
      ensures Valid()
      ensures refusal.Some? <==> |old(running)| >= slots
      ensures refusal.Some? ==> running == old(running) && current == old(current)
      ensures refusal.Some? ==> refusal == Some(Outcome(order.task, order.attempt, false, "node busy (race)"))
      ensures refusal.None? ==> current == Some(order.task)
      ensures refusal.None? ==>
                running == if order.task in old(running) then old(running) else old(running) + [order.task]
    {
      if |running| >= slots { return Some(Busy(order)); }
      if order.task !in running {
        running := running + [order.task];
      }
      current := Some(order.task);
      refusal := None;
    }

    /** The end of `_execute`: one report, whatever the ending, and the key is gone. */
    method Finish(order: Order, ending: Ending) returns (report: Outcome)
      requires Valid()
      modifies this`running, this`current
      ensures Valid() && report == ReportOf(order, ending)
      ensures running == Without(old(running), order.task) && current == FirstOf(running)
    {
      var ok, text := true, "";
      match ending {
        case Done(output) => text := output;
        case Raised(error) => ok, text := false, error;
        case Killed =>
      }
      report := Outcome(order.task, order.attempt, ok, text);
      WithoutGone(running, order.task);
      running := Without(running, order.task);
      current := FirstOf(running);
    }
  }

  // ------------------------------------------------- what a report does on arrival

  /** Each ending is one of the steps the router has to live with. */
  function Working(order: Order, ending: Ending): Step
  {
    Work(order, ReportOf(order, ending).ok, ReportOf(order, ending).text)
  }

  function Arrival(order: Order, ending: Ending): Step
  {
    Deliver(Report(order.node, ReportOf(order, ending)))
  }

  /** The system once the job has ended and its report has arrived. */
  function Reported(cfg: Config, s: System, order: Order, ending: Ending): System
  {
    Do(cfg, Do(cfg, s, Working(order, ending)), Arrival(order, ending))
  }

  lemma {:induction false} ReportArrives(cfg: Config, caps: map<string, nat>, s: System, order: Order, ending: Ending)
    requires order in s.orders
    ensures Allowed(caps, s, Working(order, ending))
    ensures Allowed(caps, Do(cfg, s, Working(order, ending)), Arrival(order, ending))
    ensures Reported(cfg, s, order, ending).t == Resulted(cfg.maxAttempts, s.t, ReportOf(order, ending)).0
  {
  }

  /** Is the order still the one the row waits for? */
  predicate Awaited(s: System, order: Order)
  {
    order.task in s.t.rows && InFlight(s.t.rows[order.task]) && s.t.rows[order.task].attempt == Some(order.attempt)
  }

  /** The report is the task's result, and the task is over. */
  predicate EndsWith(rows: map<string, Row>, r: Outcome)
  {
    r.task in rows && rows[r.task].result == Some(r) && rows[r.task].state == if r.ok then Succeeded else Failed
  }

  lemma {:induction false} Settles(cfg: Config, caps: map<string, nat>, s: System, order: Order, ending: Ending)
    requires Inv(cfg, caps, s) && order in s.orders && Awaited(s, order)
    requires ending.Raised? ==> s.t.rows[order.task].attempts >= cfg.maxAttempts
    ensures EndsWith(Reported(cfg, s, order, ending).t.rows, ReportOf(order, ending))
    ensures Inv(cfg, caps, Reported(cfg, s, order, ending))
  {
    ReportArrives(cfg, caps, s, order, ending);
    DoKeeps(cfg, caps, s, Working(order, ending));
    DoKeeps(cfg, caps, Do(cfg, s, Working(order, ending)), Arrival(order, ending));
  }

  lemma {:induction false} SettlesForGood(cfg: Config, caps: map<string, nat>, s: System, order: Order, ending: Ending,
                                          steps: seq<Step>)
    requires Inv(cfg, caps, s) && order in s.orders && Awaited(s, order)
    requires ending.Raised? ==> s.t.rows[order.task].attempts >= cfg.maxAttempts
    requires AllAllowed(cfg, caps, Reported(cfg, s, order, ending), steps)
    ensures EndsWith(Run(cfg, Reported(cfg, s, order, ending), steps).t.rows, ReportOf(order, ending))
  {
    Settles(cfg, caps, s, order, ending);
    FinalForGood(cfg, caps, Reported(cfg, s, order, ending), steps, order.task);
  }

  /** The comment on `_execute` has it that a killed job reports nothing. It reports a
      success: whenever the order is still awaited, the task ends as succeeded, with no
      text, and stays so in every continuation, instead of going back to the queue.
      Otherwise the report changes nothing. */
  lemma {:induction false} KilledCommits(cfg: Config, caps: map<string, nat>, s: System, order: Order,
                                         steps: seq<Step>)
    requires Inv(cfg, caps, s) && order in s.orders && AllAllowed(cfg, caps, Reported(cfg, s, order, Killed), steps)
    ensures Awaited(s, order) ==>
              EndsWith(Run(cfg, Reported(cfg, s, order, Killed), steps).t.rows,
                       Outcome(order.task, order.attempt, true, ""))
    ensures !Awaited(s, order) ==> Reported(cfg, s, order, Killed).t == s.t
  {
    if Awaited(s, order) {
      SettlesForGood(cfg, caps, s, order, Killed, steps);
    } else {
      ReportArrives(cfg, caps, s, order, Killed);
      NotAwaited(cfg, caps, s, order, ReportOf(order, Killed));
    }
  }

  /** A job that is done, and whose order is still awaited, ends its task as succeeded with
      its output, for good. */
  lemma {:induction false} DoneCommits(cfg: Config, caps: map<string, nat>, s: System, order: Order, output: string,
                                       steps: seq<Step>)
    requires Inv(cfg, caps, s) && order in s.orders && Awaited(s, order)
    requires AllAllowed(cfg, caps, Reported(cfg, s, order, Done(output)), steps)
    ensures EndsWith(Run(cfg, Reported(cfg, s, order, Done(output)), steps).t.rows,
                     Outcome(order.task, order.attempt, true, output))
  {
    SettlesForGood(cfg, caps, s, order, Done(output), steps);
  }

  lemma {:induction false} NotAwaited(cfg: Config, caps: map<string, nat>, s: System, order: Order, r: Outcome)
    requires Inv(cfg, caps, s) && !Awaited(s, order) && r.task == order.task && r.attempt == order.attempt
    ensures Resulted(cfg.maxAttempts, s.t, r).0 == s.t
  {
    if r.task in s.t.rows {
      assert RowOk(cfg.maxAttempts, r.task, s.t.rows[r.task]);
      assert s.t.rows[r.task := s.t.rows[r.task]] == s.t.rows;
    }
  }

  /** A job that raised, and whose order is still awaited, goes back to the queue if
      attempts are left; if not, it fails with its error, for good. */
  lemma {:induction false} RaisedRetries(cfg: Config, caps: map<string, nat>, s: System, order: Order, error: string,
                                         steps: seq<Step>)
    requires Inv(cfg, caps, s) && order in s.orders && Awaited(s, order)
    requires AllAllowed(cfg, caps, Reported(cfg, s, order, Raised(error)), steps)
    ensures Reported(cfg, s, order, Raised(error)).t.rows[order.task].state.Queued?
            <==> s.t.rows[order.task].attempts < cfg.maxAttempts
    ensures s.t.rows[order.task].attempts >= cfg.maxAttempts ==>
              EndsWith(Run(cfg, Reported(cfg, s, order, Raised(error)), steps).t.rows,
                       Outcome(order.task, order.attempt, false, error))
  {
    ReportArrives(cfg, caps, s, order, Raised(error));
    if s.t.rows[order.task].attempts >= cfg.maxAttempts {
      SettlesForGood(cfg, caps, s, order, Raised(error), steps);
    }
  }
}
