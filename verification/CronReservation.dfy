// Reserving a scheduled tick with two native primitives, a compare-and-set and a create-if-absent,
// raced by any number of instances (runtime/fqstore.go, runtime/fqclient.go).
module CronReservation {

  type CallId = nat

  datatype Node = Absent | Present(nextRun: int)

  // One call of ReserveCron in progress: past a compare-and-set that did not hold, or answered.
  datatype Call = Lost(next: int) | Answered(won: bool)

  // A call that won: the clock its compare-and-set used (none for the creator), the deadline it
  // took away and the deadline it wrote.
  datatype Win = Win(winner: CallId, clock: int, took: Node, wrote: int)

  // Calls are numbered; each is made once.
  datatype State = State(node: Node, calls: map<CallId, Call>, wins: seq<Win>)

  datatype Action =
    | CompareAndSet(c: CallId, now: int, next: int)
    | CreateIfAbsent(c: CallId)

  function Initial(): State {
    State(Absent, map[], [])
  }

  // set_if fails alike on an absent node and on one not yet due; a lost call then tries to create.
  function Step(s: State, a: Action): State {
    match a
    case CompareAndSet(c, now, next) =>
      if c in s.calls then s
      else if s.node.Present? && s.node.nextRun <= now then
        State(Present(next), s.calls[c := Answered(true)], s.wins + [Win(c, now, s.node, next)])
      else s.(calls := s.calls[c := Lost(next)])
    case CreateIfAbsent(c) =>
      if c in s.calls && s.calls[c].Lost? then
        if s.node.Absent? then
          State(Present(s.calls[c].next), s.calls[c := Answered(true)], s.wins + [Win(c, 0, Absent, s.calls[c].next)])
        else s.(calls := s.calls[c := Answered(false)])
      else s
  }

  function Run(steps: seq<Action>): State {
    if steps == [] then Initial() else Step(Run(steps[..|steps| - 1]), steps[|steps| - 1])
  }

  // The winners form a chain: the first created the reservation, each later one took exactly the
  // deadline its predecessor wrote, at a clock that had reached it; the node holds the last.
  ghost predicate Chain(node: Node, wins: seq<Win>) {
    && (node.Absent? <==> wins == [])
    && (wins != [] ==> wins[0].took == Absent && node == Present(wins[|wins| - 1].wrote))
    && (forall i, j :: 0 <= i < |wins| && j == i + 1 < |wins| ==>
          wins[j].took == Present(wins[i].wrote) && wins[j].clock >= wins[i].wrote)
  }

  // The winners are exactly the calls answered true, each once.
  ghost predicate Credited(calls: map<CallId, Call>, wins: seq<Win>) {
    && (forall i, j :: 0 <= i < j < |wins| ==> wins[i].winner != wins[j].winner)
    && (forall c :: c in calls && calls[c] == Answered(true) <==> Won(wins, c))
  }

  predicate Won(wins: seq<Win>, c: CallId) {
    exists i :: 0 <= i < |wins| && wins[i].winner == c
  }

  lemma CreditNext(calls: map<CallId, Call>, wins: seq<Win>, w: Win)
    requires Credited(calls, wins) && (w.winner in calls ==> calls[w.winner] != Answered(true))
    ensures Credited(calls[w.winner := Answered(true)], wins + [w])
  {
    var n := wins + [w];
    assert !Won(wins, w.winner);
    forall i | 0 <= i < |wins| ensures n[i].winner != w.winner { assert n[i] == wins[i]; }
    forall c ensures Won(n, c) <==> Won(wins, c) || c == w.winner {
      if Won(wins, c) {
        var i :| 0 <= i < |wins| && wins[i].winner == c;
        assert n[i].winner == c;
      }
      if c == w.winner { assert n[|wins|].winner == c; }
    }
  }

  lemma CreditSame(calls: map<CallId, Call>, wins: seq<Win>, c: CallId, call: Call)
    requires Credited(calls, wins) && (c in calls ==> calls[c] != Answered(true)) && call != Answered(true)
    ensures Credited(calls[c := call], wins)
  {
    assert !Won(wins, c);
  }

  lemma StepKeeps(s: State, a: Action)
    requires Chain(s.node, s.wins) && Credited(s.calls, s.wins)
    ensures Chain(Step(s, a).node, Step(s, a).wins) && Credited(Step(s, a).calls, Step(s, a).wins)
  {
    hide Credited;
    var n := Step(s, a);
    if |n.wins| > |s.wins| {
      CreditNext(s.calls, s.wins, n.wins[|s.wins|]);
    } else if n != s {
      CreditSame(s.calls, s.wins, a.c, n.calls[a.c]);
    }
  }

  // Every interleaving of every instance's two requests.
  lemma {:induction false} Exclusive(steps: seq<Action>)
    ensures Chain(Run(steps).node, Run(steps).wins) && Credited(Run(steps).calls, Run(steps).wins)
  {
    if steps != [] {
      Exclusive(steps[..|steps| - 1]);
      StepKeeps(Run(steps[..|steps| - 1]), steps[|steps| - 1]);
    }
  }

  // The deadline is computed an interval after a clock read before the reservation reads its own. When
  // no winner was more than `delay` between the two, a later winner's clock is at least that many
  // intervals less the delay on: no tick is won twice, however the clocks are skewed.
  lemma {:induction false} Spaced(steps: seq<Action>, interval: int, delay: int, i: nat, j: nat)
    requires var w := Run(steps).wins;
      1 <= i <= j < |w| && forall k :: 1 <= k < |w| ==> w[k].wrote >= w[k].clock + interval - delay
    ensures Run(steps).wins[j].clock >= Run(steps).wins[i].clock + (j - i) * (interval - delay)
    decreases j
  {
    Exclusive(steps);
    if i < j {
      Spaced(steps, interval, delay, i, j - 1);
      var w := Run(steps).wins;
      assert w[j].clock >= w[j - 1].wrote;
      assert (j - i) * (interval - delay) == (j - 1 - i) * (interval - delay) + (interval - delay);
    }
  }

  // The delay does shorten a tick: a deadline computed in second 10 and reserved in second 11.
  lemma DelayShortens()
    ensures var w := Run([CompareAndSet(0, 0, 11), CreateIfAbsent(0), CompareAndSet(1, 11, 10 + 60),
      CompareAndSet(2, 70, 130)]).wins;
      |w| == 3 && w[1].clock == 11 && w[2].clock == 70
  {
    var s1 := [CompareAndSet(0, 0, 11)];
    var s2 := s1 + [CreateIfAbsent(0)];
    var s3 := s2 + [CompareAndSet(1, 11, 10 + 60)];
    assert s1[..0] == [] && s2[..1] == s1 && s3[..2] == s2;
    assert Run(s1) == State(Absent, map[0 := Lost(11)], []);
    assert Run(s2) == State(Present(11), map[0 := Answered(true)], [Win(0, 0, Absent, 11)]);
    var s4 := [CompareAndSet(0, 0, 11), CreateIfAbsent(0), CompareAndSet(1, 11, 10 + 60), CompareAndSet(2, 70, 130)];
    assert s4[..3] == s3;
  }

  // A compare-and-set takes a deadline that has come, and only that: the call wins and leaves its own
  // deadline. A call that lost wins by creating exactly when there is no reservation.
  lemma DueWins(s: State, c: CallId, now: int, next: int)
    requires c !in s.calls
    ensures var n := Step(s, CompareAndSet(c, now, next));
      if s.node.Present? && s.node.nextRun <= now
      then n.calls[c] == Answered(true) && n.node == Present(next)
      else n.calls[c] == Lost(next) && n.node == s.node
    ensures var lost := s.(calls := s.calls[c := Lost(next)]); var n := Step(lost, CreateIfAbsent(c));
      n.calls[c] == Answered(s.node == Absent) && n.node == if s.node == Absent then Present(next) else s.node
  {
  }

  // A caller answered false found the reservation present: it neither created nor changed it.
  lemma LoserChangesNothing(s: State, a: Action)
    requires a.c !in s.calls || !s.calls[a.c].Answered?
    requires var n := Step(s, a); a.c in n.calls && n.calls[a.c] == Answered(false)
    ensures Step(s, a).node == s.node && s.node.Present? && Step(s, a).wins == s.wins
  {
  }
}
