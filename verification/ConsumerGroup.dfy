/** When Kafka may forget a message: one partition of the topic, read by a consumer group whose
    members poll, process and then commit their position (worker/__main__.py,
    common/messaging.py). Members crash, and the partition moves between them at any time; a slow
    former owner keeps processing, but its commit is refused. */
module ConsumerGroup {

  /** What a member has in hand: a polled message, and whether `process` has offered it to `claim`. */
  datatype Member = Free | Holding(k: int, offered: bool)

  /** `offered[k]`: message `k` has been offered to `claim`. `position`: where the owner polls next. */
  datatype Partition = Partition(
    offered: seq<bool>,
    committed: int,
    position: int,
    owner: int,
    members: map<int, Member>)
  {
    function M(c: int): Member {
      if c in members then members[c] else Free
    }

    function Set(c: int, m: Member): Partition {
      this.(members := members[c := m])
    }
  }

  const NOBODY := -1

  datatype Action =
    | Append
    | Assign(c: int)
    | Poll(c: int)
    | Offer(c: int)
    | Commit(c: int)
    | Crash(c: int)

  const INIT := Partition([], 0, 0, NOBODY, map[])

  function Apply(p: Partition, a: Action): Partition {
    match a
    case Append => p.(offered := p.offered + [false])
    // an assignment is taken up inside `poll`, when the member has nothing in hand
    case Assign(c) => if c < 0 || p.M(c) != Free then p else p.(owner := c, position := p.committed)
    case Poll(c) =>
      if c < 0 || c != p.owner || p.M(c) != Free || p.position >= |p.offered| then p
      else p.Set(c, Holding(p.position, false)).(position := p.position + 1)
    case Offer(c) =>
      if !p.M(c).Holding? || !(0 <= p.M(c).k < |p.offered|) then p
      else p.Set(c, Holding(p.M(c).k, true)).(offered := p.offered[p.M(c).k := true])
    // a member that no longer owns the partition fails here and stops
    case Commit(c) =>
      if !p.M(c).Holding? || !p.M(c).offered then p
      else if 0 <= c == p.owner then p.Set(c, Free).(committed := p.position)
      else p.Set(c, Free)
    case Crash(c) => p.Set(c, Free).(owner := if c == p.owner then NOBODY else p.owner)
  }

  function Exec(p: Partition, acts: seq<Action>): Partition {
    if acts == [] then p else Apply(Exec(p, acts[..|acts| - 1]), acts[|acts| - 1])
  }

  /** What the owner has in hand is the last message it polled; everything before that has been
      offered. */
  ghost predicate Ok(p: Partition) {
    && 0 <= p.committed <= p.position <= |p.offered|
    && (p.owner < 0 ==> p.owner == NOBODY)
    && (forall c :: p.M(c).Holding? ==> 0 <= p.M(c).k < |p.offered|)
    && (forall c :: p.M(c).Holding? && p.M(c).offered ==> p.offered[p.M(c).k])
    && (0 <= p.owner && p.M(p.owner).Holding? ==> p.committed <= p.M(p.owner).k == p.position - 1)
    && (forall k :: 0 <= k < p.committed ==> p.offered[k])
    && (0 <= p.owner ==>
          forall k :: 0 <= k < p.position ==> p.offered[k] || p.M(p.owner) == Holding(k, false))
  }

  lemma HeldOk(p: Partition, a: Action, c: int)
    requires Ok(p) && Apply(p, a).M(c).Holding?
    ensures var q := Apply(p, a);
      0 <= q.M(c).k < |q.offered| && (q.M(c).offered ==> q.offered[q.M(c).k])
  {
    assert p.M(c).Holding? ==> 0 <= p.M(c).k < |p.offered| && (p.M(c).offered ==> p.offered[p.M(c).k]);
  }

  lemma OkStep(p: Partition, a: Action)
    requires Ok(p)
    ensures Ok(Apply(p, a))
  {
    forall c | Apply(p, a).M(c).Holding?
      ensures 0 <= Apply(p, a).M(c).k < |Apply(p, a).offered|
      ensures Apply(p, a).M(c).offered ==> Apply(p, a).offered[Apply(p, a).M(c).k]
    {
      HeldOk(p, a, c);
    }
    match a
    case Append =>
    case Assign(c) =>
    case Poll(c) =>
    case Offer(c) =>
    case Commit(c) =>
    case Crash(c) =>
  }

  lemma {:induction false} OkAlways(acts: seq<Action>)
    ensures Ok(Exec(INIT, acts))
  {
    if acts != [] {
      OkAlways(acts[..|acts| - 1]);
      OkStep(Exec(INIT, acts[..|acts| - 1]), acts[|acts| - 1]);
    }
  }

  /** At least once: in every run, a message below the committed offset has been offered to `claim`;
      so a message not yet offered is delivered again, whoever crashes or loses the partition. */
  lemma CommittedWereOffered(acts: seq<Action>, k: int)
    requires 0 <= k < |Exec(INIT, acts).offered|
    ensures var p := Exec(INIT, acts); k < p.committed ==> p.offered[k]
  {
    OkAlways(acts);
  }

  // ----- redelivery ----------------------------------------------------------------------------------

  function Rounds(c: int, n: int): seq<Action> {
    if n <= 0 then [] else Rounds(c, n - 1) + [Poll(c)] + [Offer(c)] + [Commit(c)]
  }

  lemma ExecSnoc(p: Partition, acts: seq<Action>, a: Action)
    ensures Exec(p, acts + [a]) == Apply(Exec(p, acts), a)
  {
  }

  /** One poll, offer and commit by an owner with nothing in hand. */
  lemma Round(p: Partition, c: int)
    requires Ok(p) && 0 <= c == p.owner && p.M(c) == Free && p.position < |p.offered|
    ensures var q := Apply(Apply(Apply(p, Poll(c)), Offer(c)), Commit(c));
      && q.owner == c && q.M(c) == Free && |q.offered| == |p.offered|
      && q.position == q.committed == p.position + 1
  {
  }

  lemma {:induction false} RoundsRun(p: Partition, c: int, n: nat)
    requires Ok(p) && 0 <= c == p.owner && p.M(c) == Free && p.position == p.committed && p.position + n <= |p.offered|
    ensures var q := Exec(p, Rounds(c, n));
      && Ok(q) && q.owner == c && q.M(c) == Free && |q.offered| == |p.offered|
      && q.position == q.committed == p.position + n
    decreases n
  {
    if n > 0 {
      RoundsRun(p, c, n - 1);
      var acts := Rounds(c, n - 1);
      var q := Exec(p, acts);
      ExecSnoc(p, acts, Poll(c));
      ExecSnoc(p, acts + [Poll(c)], Offer(c));
      ExecSnoc(p, acts + [Poll(c)] + [Offer(c)], Commit(c));
      Round(q, c);
      OkStep(q, Poll(c));
      OkStep(Apply(q, Poll(c)), Offer(c));
      OkStep(Apply(Apply(q, Poll(c)), Offer(c)), Commit(c));
    }
  }

  /** A restarted member takes over the partition at the committed offset, with nothing in hand. */
  lemma TakesOver(p: Partition, c: int)
    requires Ok(p) && 0 <= c
    ensures var q := Apply(Apply(p, Crash(c)), Assign(c));
      && Ok(q) && q.owner == c && q.M(c) == Free && q.offered == p.offered
      && q.position == q.committed == p.committed
  {
    OkStep(p, Crash(c));
    OkStep(Apply(p, Crash(c)), Assign(c));
  }

  /** The last `n` messages are one round each. */
  lemma RoundsReachEnd(q: Partition, c: int, n: nat)
    requires Ok(q) && 0 <= c == q.owner && q.M(c) == Free && q.position == q.committed && q.position + n == |q.offered|
    ensures var end := Exec(q, Rounds(c, n));
      |end.offered| == |q.offered| && forall k :: 0 <= k < |end.offered| ==> end.offered[k]
  {
    RoundsRun(q, c, n);
  }

  /** From every reachable state, a member that restarts and takes over the partition offers every
      message that no one has offered yet. */
  lemma RestartDeliversAll(acts: seq<Action>, c: int)
    requires 0 <= c
    ensures var p := Exec(INIT, acts);
      var end := Exec(Apply(Apply(p, Crash(c)), Assign(c)), Rounds(c, |p.offered| - p.committed));
      |end.offered| == |p.offered| && forall k :: 0 <= k < |end.offered| ==> end.offered[k]
  {
    OkAlways(acts);
    RestartFrom(Exec(INIT, acts), c);
  }

  lemma RestartFrom(p: Partition, c: int)
    requires Ok(p) && 0 <= c
    ensures var end := Exec(Apply(Apply(p, Crash(c)), Assign(c)), Rounds(c, |p.offered| - p.committed));
      |end.offered| == |p.offered| && forall k :: 0 <= k < |end.offered| ==> end.offered[k]
  {
    TakesOver(p, c);
    RoundsReachEnd(Apply(Apply(p, Crash(c)), Assign(c)), c, |p.offered| - p.committed);
  }
}
