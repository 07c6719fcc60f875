/** Spare processes: in every reachable state all but finitely many dispatchers and workers have
    nothing in hand. */
module Spare {
  import opened Models
  import opened Protocol

  /** Dispatchers and workers with ids outside (-n, n) have nothing in hand. */
  ghost predicate IdleBeyond(s: System, n: int) {
    forall i :: i <= -n || n <= i ==> s.D(i) == Dispatcher([], false) && s.W(i).Waiting?
  }

  function ActorId(a: Action): int {
    match a
    case Fetch(d, _, _) => d
    case Publish(d) => d
    case Mark(d) => d
    case CrashDispatcher(d) => d
    case Poll(w, _) => w
    case _ => 0
  }

  lemma IdleDispatcher(s: System, a: Action, i: int)
    requires s.D(i) == Dispatcher([], false) && ActorId(a) != i
    ensures Apply(s, a).D(i) == Dispatcher([], false)
  {
  }

  lemma IdleWorker(s: System, a: Action, i: int)
    requires s.W(i).Waiting? && ActorId(a) != i
    ensures Apply(s, a).W(i).Waiting?
  {
  }

  lemma IdleStep(s: System, a: Action, n: int)
    requires IdleBeyond(s, n) && -n < ActorId(a) < n
    ensures IdleBeyond(Apply(s, a), n)
  {
    forall i | i <= -n || n <= i
      ensures Apply(s, a).D(i) == Dispatcher([], false) && Apply(s, a).W(i).Waiting?
    {
      assert s.D(i) == Dispatcher([], false) && s.W(i).Waiting?;
      IdleDispatcher(s, a, i);
      IdleWorker(s, a, i);
    }
  }

  lemma {:induction false} IdleBound(config: map<string, TypeConfig>, t0: int, acts: seq<Action>) returns (n: int)
    ensures 0 <= n && IdleBeyond(Exec(Init(config, t0), acts), n)
    decreases |acts|
  {
    if acts == [] {
      n := 0;
    } else {
      var init, last := acts[..|acts| - 1], acts[|acts| - 1];
      var m := IdleBound(config, t0, init);
      var id := ActorId(last);
      n := Max(m, Max(id, -id) + 1);
      IdleStep(Exec(Init(config, t0), init), last, n);
    }
  }
}
