// The objects behind the channel steps: each method is one section a lock protects, updating the
// channel or the registry in place (runtime/channel.go).
module ChannelMonitor {
  import opened Channels

  // awaitAny's own one-slot Go channel: sending when it is full does nothing.
  class Token {
    var pending: bool
    constructor () ensures !pending { pending := false; }
  }

  datatype Attempt = Took(ok: bool) | MustWait

  datatype Receipt = Value(v: string) | GoneClosed | Empty

  class FctChan {
    var queue: seq<string>
    var closed: bool
    const capacity: nat
    var watchers: set<Token>

    constructor (n: nat)
      ensures queue == [] && !closed && capacity == n && watchers == {}
    {
      queue, closed, capacity, watchers := [], false, n, {};
    }

    // The channel as the step machine sees it; who watches it is the tokens' business.
    ghost function State(): Chan
      reads this
    {
      Chan(queue, closed, capacity, {})
    }

    method Notify()
      modifies watchers
      ensures forall w :: w in watchers ==> w.pending
    {
      var left := watchers;
      while left != {}
        invariant left <= watchers
        invariant forall w :: w in watchers - left ==> w.pending
      {
        var w :| w in left;
        w.pending := true;
        left := left - {w};
      }
    }

    // One turn of send's wait loop: MustWait leaves everything as it was.
    method Send(v: string) returns (out: Attempt)
      modifies this`queue, watchers
      ensures out == if closed then Took(false) else if |old(queue)| >= capacity then MustWait else Took(true)
      ensures State() == if out == Took(true) then Put(old(State()), v) else old(State())
      ensures forall w :: w in watchers ==> w.pending == (old(w.pending) || out == Took(true))
      ensures |old(queue)| <= capacity ==> |queue| <= capacity
    {
      if closed { return Took(false); }
      if |queue| >= capacity { return MustWait; }
      queue := queue + [v];
      Notify();
      out := Took(true);
    }

    method TrySend(v: string) returns (ok: bool)
      modifies this`queue, watchers
      ensures ok <==> !closed && |old(queue)| < capacity
      ensures State() == if ok then Put(old(State()), v) else old(State())
      ensures forall w :: w in watchers ==> w.pending == (old(w.pending) || ok)
    {
      if closed || |queue| >= capacity { return false; }
      queue := queue + [v];
      Notify();
      ok := true;
    }

    method Recv() returns (out: Receipt)
      modifies this`queue
      ensures out == if closed then GoneClosed else if old(queue) == [] then Empty else Value(old(queue)[0])
      ensures State() == if out.Value? then Taken(old(State())) else old(State())
      ensures out.Value? ==> old(queue) == [out.v] + queue
    {
      if closed { return GoneClosed; }
      if queue == [] { return Empty; }
      out := Value(queue[0]);
      queue := queue[1..];
    }

    method CloseQueue() returns (ghost discarded: seq<string>)
      modifies this`queue, this`closed, watchers
      ensures State() == Shut(old(State())) && discarded == old(queue)
      ensures forall w :: w in watchers ==> w.pending
    {
      discarded := queue;
      closed, queue := true, [];
      Notify();
    }

    method Watch(w: Token, on: bool)
      modifies this`watchers
      ensures watchers == if on then old(watchers) + {w} else old(watchers) - {w}
    {
      watchers := if on then watchers + {w} else watchers - {w};
    }
  }

  // The first channel of the list with a value waiting or closed, or none.
  method Scan(chans: seq<FctChan>) returns (i: int)
    ensures -1 <= i < |chans|
    ensures i >= 0 ==> chans[i].queue != [] || chans[i].closed
    ensures forall j :: 0 <= j < (if i < 0 then |chans| else i) ==> chans[j].queue == [] && !chans[j].closed
  {
    i := 0;
    while i < |chans|
      invariant 0 <= i <= |chans|
      invariant forall j :: 0 <= j < i ==> chans[j].queue == [] && !chans[j].closed
    {
      if chans[i].queue != [] || chans[i].closed { return; }
      i := i + 1;
    }
    i := -1;
  }

  datatype Found = Live(c: FctChan) | WasClosed | NeverMinted

  class ChannelRegistry {
    var next: int
    var chans: map<int, FctChan>

    ghost predicate Valid()
      reads this
    {
      next >= 0 && forall id :: id in chans ==> 1 <= id <= next
    }

    constructor ()
      ensures Valid() && next == 0 && chans == map[]
    {
      next, chans := 0, map[];
    }

    // An out-of-range buffer mints nothing; otherwise the handle was never in use before.
    method CreateSized(n: int) returns (id: int)
      requires Valid()
      modifies this
      ensures Valid()
      ensures 1 <= n <= MAX_CHANNEL_BUFFER ==>
        && id == next == old(next) + 1 && id !in old(chans) && chans.Keys == old(chans.Keys) + {id}
        && fresh(chans[id]) && chans[id].capacity == n && chans[id].queue == [] && !chans[id].closed
        && (forall k :: k in old(chans) ==> chans[k] == old(chans[k]))
      ensures !(1 <= n <= MAX_CHANNEL_BUFFER) ==> id == 0 && next == old(next) && chans == old(chans)
    {
      if n < 1 || n > MAX_CHANNEL_BUFFER { return 0; }
      next := next + 1;
      id := next;
      var c := new FctChan(n);
      chans := chans[id := c];
    }

    method Lookup(id: int) returns (out: Found)
      requires Valid()
      ensures out == if id in chans then Live(chans[id]) else if 1 <= id <= next then WasClosed else NeverMinted
    {
      if id in chans { return Live(chans[id]); }
      out := if id >= 1 && id <= next then WasClosed else NeverMinted;
    }

    // close's first half: only one caller can take a handle out, and it stays out.
    method Release(id: int) returns (out: Found)
      requires Valid()
      modifies this`chans
      ensures Valid() && chans == old(chans) - {id}
      ensures out == if id in old(chans) then Live(old(chans)[id]) else if 1 <= id <= next then WasClosed
        else NeverMinted
    {
      if id !in chans {
        return if id >= 1 && id <= next then WasClosed else NeverMinted;
      }
      out := Live(chans[id]);
      chans := chans - {id};
    }
  }
}
