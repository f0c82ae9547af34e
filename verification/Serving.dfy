/**
 The poll table of common/src/serving.c: an array that grows while it is walked and loses entries by
 having the last one moved into their place. The kernel is a parameter: it decides which entries are
 ready, what accept returns and whether a request leaves its connection open.
 */
module Serving {

  datatype PollFd = PollFd(fd: int, ready: bool)

  /** A request on fd was handled; keep is what handle_request returned. */
  datatype Served = Served(fd: int, keep: bool)

  /** The listening socket, the connections accepted from it and not closed yet, and what happened so far. */
  class Kernel {
    const listener: int
    var accepted: set<int>
    ghost var polls: nat             // calls of poll
    ghost var ready: set<int>        // what the last one reported
    ghost var offered: seq<int>      // what accept returned
    ghost var handled: seq<Served>

    ghost predicate Valid()
      reads this
    {
      listener !in accepted && -1 !in accepted && listener != -1
    }

    constructor (listener: int)
      requires listener >= 0
      ensures Valid() && this.listener == listener && accepted == {}
    {
      this.listener := listener;
      accepted := {};
    }

    /** poll: any of the entries may be ready. */
    method Poll(pfds: array<PollFd>, count: nat)
      requires count <= pfds.Length
      modifies `polls, `ready, pfds
      ensures polls == old(polls) + 1
      ensures forall k :: 0 <= k < pfds.Length ==> pfds[k].fd == old(pfds[k].fd)
      ensures forall k :: 0 <= k < count ==> (pfds[k].ready <==> pfds[k].fd in ready)
    {
      polls := polls + 1;
      var reported: set<int> := *;
      ready := reported;
      var i := 0;
      while i < count
        invariant 0 <= i <= count && polls == old(polls) + 1 && ready == reported
        invariant forall k :: 0 <= k < pfds.Length ==> pfds[k].fd == old(pfds[k].fd)
        invariant forall k :: 0 <= k < i ==> (pfds[k].ready <==> pfds[k].fd in ready)
      {
        pfds[i] := pfds[i].(ready := pfds[i].fd in reported);
        i := i + 1;
      }
    }

    /** accept: -1, or a descriptor not in use. */
    method Accept() returns (fd: int)
      requires Valid()
      modifies `accepted, `offered
      ensures Valid() && offered == old(offered) + [fd]
      ensures fd == -1 ==> accepted == old(accepted)
      ensures fd != -1 ==> fd !in old(accepted) && fd != listener && accepted == old(accepted) + {fd}
    {
      fd := *;
      if fd < 0 || fd in accepted || fd == listener {
        fd := -1;
      } else {
        accepted := accepted + {fd};
      }
      offered := offered + [fd];
    }

    method Close(fd: int)
      requires Valid()
      modifies `accepted
      ensures Valid() && accepted == old(accepted) - {fd}
    {
      accepted := accepted - {fd};
    }

    /** handle_request: whether it wants the connection kept open. */
    method Handle(fd: int) returns (keep: bool)
      modifies `handled
      ensures handled == old(handled) + [Served(fd, keep)]
    {
      keep := *;
      handled := handled + [Served(fd, keep)];
    }
  }

  function Fds(entries: seq<PollFd>): (s: seq<int>)
    ensures |s| == |entries| && forall i :: 0 <= i < |entries| ==> s[i] == entries[i].fd
  {
    seq(|entries|, i requires 0 <= i < |entries| => entries[i].fd)
  }

  ghost predicate Distinct(s: seq<int>) {
    forall i, j :: 0 <= i < j < |s| ==> s[i] != s[j]
  }

  /** The listener first, then each accepted connection exactly once. */
  ghost predicate Holds(live: seq<int>, listener: int, accepted: set<int>) {
    && |live| > 0 && live[0] == listener && Distinct(live)
    && forall x :: x in live[1..] <==> x in accepted
  }

  /** Each exactly once, as a multiset. */
  lemma HoldsExactlyOnce(live: seq<int>, listener: int, accepted: set<int>)
    requires Holds(live, listener, accepted)
    ensures multiset(live) == multiset{listener} + multiset(accepted)
    ensures |live| == 1 + |accepted|
  {
    var rest := live[1..];
    assert live == [listener] + rest;
    forall x ensures multiset(rest)[x] == multiset(accepted)[x] {
      OnceEach(rest, x);
    }
    assert multiset(rest) == multiset(accepted);
    assert |multiset(rest)| == |multiset(accepted)|;
    SizeOfMultiset(accepted);
  }

  lemma SizeOfMultiset(s: set<int>)
    ensures |multiset(s)| == |s|
  {
  }

  lemma {:induction false} OnceEach(s: seq<int>, x: int)
    requires Distinct(s)
    ensures multiset(s)[x] == if x in s then 1 else 0
  {
    if s != [] {
      var front, last := s[..|s| - 1], s[|s| - 1];
      assert s == front + [last];
      OnceEach(front, x);
    }
  }

  function Appended(live: seq<int>, fd: int): seq<int> {
    live + [fd]
  }

  /** The last entry takes the place of the i-th. */
  function SwapRemoved(live: seq<int>, i: nat): seq<int>
    requires i < |live|
  {
    live[i := live[|live| - 1]][..|live| - 1]
  }

  lemma AppendHolds(live: seq<int>, listener: int, accepted: set<int>, fd: int)
    requires Holds(live, listener, accepted) && fd !in accepted && fd != listener
    ensures Holds(Appended(live, fd), listener, accepted + {fd})
  {
    var live' := Appended(live, fd);
    assert live'[1..] == live[1..] + [fd];
    forall i | 0 <= i < |live| ensures live[i] != fd {
      assert i > 0 ==> live[i] in live[1..];
    }
  }

  lemma SwapRemoveHolds(live: seq<int>, listener: int, accepted: set<int>, i: nat)
    requires Holds(live, listener, accepted) && 0 < i < |live|
    ensures Holds(SwapRemoved(live, i), listener, accepted - {live[i]})
    ensures SwapRemoved(live, i)[..i] == live[..i]
  {
    var live' := SwapRemoved(live, i);
    forall x ensures x in live'[1..] <==> x in accepted - {live[i]} {
      if x in live'[1..] {
        var k :| 1 <= k < |live'| && live'[k] == x;
        var k' := if k == i then |live| - 1 else k;
        assert live[k'] == x && live[k'] in live[1..];
      }
      if x in accepted && x != live[i] {
        assert x in live[1..];
        var k :| 1 <= k < |live| && live[k] == x;
        var k' := if k == |live| - 1 then i else k;
        assert live'[k'] == x && live'[k'] in live'[1..];
      }
    }
  }

  // ---------------------------------------------------------------- one pass over the table

  /** The connections served, accepted and closed in a pass that has come to position i. */
  datatype Log = Log(served: seq<int>, came: seq<int>, closed: set<int>)

  function Before(live: seq<int>, i: nat): seq<int> {
    live[..if i < |live| then i else |live|]
  }

  ghost predicate Pass(listener: int, before: set<int>, live: seq<int>, i: nat, accepted: set<int>, log: Log) {
    && Holds(live, listener, accepted)
    && Distinct(log.served) && |log.came| <= 1 && (i == 0 ==> log == Log([], [], {}))
    && log.closed !! accepted
    && (forall x :: x in log.closed ==> x in log.served)
    && (forall x :: x in log.served ==> (x in Before(live, i) || x in log.closed) && (x in before || x in log.came))
    && (forall x :: x in log.came ==> x != listener && x !in before)
    && (forall x :: x in accepted <==> (x in before || x in log.came) && x !in log.closed)
  }

  lemma PassSkips(listener: int, before: set<int>, live: seq<int>, i: nat, accepted: set<int>, log: Log)
    requires Pass(listener, before, live, i, accepted, log) && i < |live|
    ensures Pass(listener, before, live, i + 1, accepted, log)
  {
    hide Holds, Distinct;
    assert Before(live, i + 1) == Before(live, i) + [live[i]];
  }

  lemma PassAccepts(listener: int, before: set<int>, live: seq<int>, accepted: set<int>, log: Log, fd: int)
    requires Pass(listener, before, live, 0, accepted, log) && fd !in accepted && fd != listener
    ensures Pass(listener, before, Appended(live, fd), 1, accepted + {fd}, Log([], [fd], {}))
  {
    AppendHolds(live, listener, accepted, fd);
  }

  /** The entry at i is none of those served before. */
  lemma NotServedYet(listener: int, before: set<int>, live: seq<int>, i: nat, accepted: set<int>, log: Log)
    requires Pass(listener, before, live, i, accepted, log) && 0 < i < |live|
    ensures live[i] in accepted && live[i] !in log.served && Distinct(log.served + [live[i]])
  {
    assert live[i] in live[1..];
    assert live[i] !in Before(live, i);
  }

  lemma PassServes(listener: int, before: set<int>, live: seq<int>, i: nat, accepted: set<int>, log: Log)
    requires Pass(listener, before, live, i, accepted, log) && 0 < i < |live|
    ensures Pass(listener, before, live, i + 1, accepted, log.(served := log.served + [live[i]]))
  {
    NotServedYet(listener, before, live, i, accepted, log);
    hide Holds, Distinct;
    assert Before(live, i + 1) == Before(live, i) + [live[i]];
  }

  lemma PassCloses(listener: int, before: set<int>, live: seq<int>, i: nat, accepted: set<int>, log: Log)
    requires Pass(listener, before, live, i, accepted, log) && 0 < i < |live|
    ensures Pass(listener, before, SwapRemoved(live, i), i + 1, accepted - {live[i]},
                 log.(served := log.served + [live[i]], closed := log.closed + {live[i]}))
  {
    NotServedYet(listener, before, live, i, accepted, log);
    SwapRemoveHolds(live, listener, accepted, i);
    hide Holds, Distinct;
    var live' := SwapRemoved(live, i);
    assert |live'| == |live| - 1;
    assert Before(live, i) == live[..i] == live'[..i];
    assert forall x :: x in Before(live, i) ==> x in Before(live', i + 1);
  }

  // ---------------------------------------------------------------- who is served

  function ServedFds(handled: seq<Served>): (s: seq<int>)
    ensures |s| == |handled| && forall i :: 0 <= i < |handled| ==> s[i] == handled[i].fd
  {
    seq(|handled|, i requires 0 <= i < |handled| => handled[i].fd)
  }

  /** What the pass has seen of the kernel: its answers to accept and handle_request, and the connections that a
      removal moved to a position the walk had already passed. */
  datatype Seen = Seen(offered: seq<int>, handled: seq<Served>, moved: set<int>)

  /** The log follows the kernel's answers. */
  ghost predicate Faithful(log: Log, seen: Seen) {
    && log.served == ServedFds(seen.handled)
    && (forall x :: x in log.closed <==> Served(x, false) in seen.handled)
    && |seen.offered| <= 1 && log.came == if seen.offered == [] || seen.offered[0] == -1 then [] else seen.offered
  }

  /** A pass at position i: entries ahead are marked as poll reported them, whoever was reported and is no longer
      ahead has been served or was moved, and nobody else has been served. */
  ghost predicate Walk(listener: int, before: set<int>, ready: set<int>, entries: seq<PollFd>, i: nat, log: Log, seen: Seen) {
    && Faithful(log, seen)
    && (if i == 0 then seen == Seen([], [], {}) else seen.offered != [] <==> listener in ready)
    && (forall k :: i <= k < |entries| && entries[k].fd !in log.came ==> (entries[k].ready <==> entries[k].fd in ready))
    && (forall x :: x in log.served ==> x in ready || x in log.came)
    && (forall x :: x in before && x in ready ==> x in log.served || x in seen.moved || Ahead(entries, i, x))
    && (forall x :: x in seen.moved ==> x != listener && x !in log.served && x in Before(Fds(entries), i))
    && (log.closed == {} ==> seen.moved == {})
  }

  ghost predicate Ahead(entries: seq<PollFd>, i: nat, x: int) {
    exists k :: i <= k < |entries| && entries[k].fd == x
  }

  lemma AheadNext(entries: seq<PollFd>, i: nat, x: int)
    requires i < |entries| && Ahead(entries, i, x) && x != entries[i].fd
    ensures Ahead(entries, i + 1, x)
  {
  }

  lemma BeforeNext(entries: seq<PollFd>, i: nat)
    requires i < |entries|
    ensures Before(Fds(entries), i + 1) == Before(Fds(entries), i) + [entries[i].fd]
  {
  }

  ghost predicate CameAnew(listener: int, before: set<int>, log: Log) {
    listener !in before && forall x :: x in log.came ==> x != listener && x !in before
  }

  /** An entry that is not ready, or the listener when accept has nothing. */
  lemma WalkSkips(listener: int, before: set<int>, ready: set<int>, entries: seq<PollFd>, i: nat, log: Log, seen: Seen, offered: seq<int>)
    requires Walk(listener, before, ready, entries, i, log, seen) && i < |entries| && CameAnew(listener, before, log)
    requires entries[i].fd == listener <==> i == 0
    requires i > 0 ==> !entries[i].ready && offered == seen.offered
    requires i == 0 ==> log == Log([], [], {}) && offered == if entries[0].ready then [-1] else []
    ensures Walk(listener, before, ready, entries, i + 1, log, seen.(offered := offered))
  {
    hide Before;
    BeforeNext(entries, i);
    forall x | x in before && x in ready && Ahead(entries, i, x) ensures Ahead(entries, i + 1, x) {
      AheadNext(entries, i, x);
    }
  }

  /** The listener, when accept gives a connection. */
  lemma WalkAccepts(listener: int, before: set<int>, ready: set<int>, entries: seq<PollFd>, more: seq<PollFd>, fd: int)
    requires Walk(listener, before, ready, entries, 0, Log([], [], {}), Seen([], [], {})) && |entries| > 0
    requires entries[0].fd == listener && entries[0].ready && listener !in before && fd != -1
    requires |more| == |entries| + 1 && more[..|entries|] == entries && more[|entries|].fd == fd
    ensures Walk(listener, before, ready, more, 1, Log([], [fd], {}), Seen([fd], [], {}))
  {
    forall x | x in before && x in ready && Ahead(entries, 0, x) ensures Ahead(more, 1, x) {
      var k :| 0 <= k < |entries| && entries[k].fd == x;
      assert more[k].fd == x;
    }
  }

  /** Ahead of the walk nobody has been served or passed. */
  lemma NobodyAhead(listener: int, before: set<int>, entries: seq<PollFd>, i: nat, accepted: set<int>, log: Log)
    requires Pass(listener, before, Fds(entries), i, accepted, log) && i > 0
    ensures forall k :: i <= k < |entries| ==> entries[k].fd !in log.served && entries[k].fd !in Before(Fds(entries), i)
    ensures CameAnew(listener, before, log) || listener in before
  {
    var live := Fds(entries);
    forall k | i <= k < |entries| ensures entries[k].fd !in log.served && entries[k].fd !in Before(live, i) {
      assert live[k] in live[1..];
    }
  }

  /** A connection that is ready and stays. */
  lemma WalkServes(listener: int, before: set<int>, ready: set<int>, entries: seq<PollFd>, i: nat, log: Log, seen: Seen)
    requires Walk(listener, before, ready, entries, i, log, seen) && 0 < i < |entries| && entries[i].ready
    requires entries[i].fd !in Before(Fds(entries), i)
    ensures Walk(listener, before, ready, entries, i + 1, log.(served := log.served + [entries[i].fd]),
                 seen.(handled := seen.handled + [Served(entries[i].fd, true)]))
  {
    hide Before;
    BeforeNext(entries, i);
    forall x | x in before && x in ready && Ahead(entries, i, x) && x != entries[i].fd ensures Ahead(entries, i + 1, x) {
      AheadNext(entries, i, x);
    }
    assert ServedFds(seen.handled + [Served(entries[i].fd, true)]) == ServedFds(seen.handled) + [entries[i].fd];
  }

  function Shrunk(entries: seq<PollFd>, i: nat): seq<PollFd>
    requires i < |entries|
  {
    entries[i := entries[|entries| - 1]][..|entries| - 1]
  }

  /** Whom a removal at i moves to a passed position. */
  function MovedBy(entries: seq<PollFd>, i: nat): set<int>
    requires i < |entries|
  {
    if i < |entries| - 1 then {entries[|entries| - 1].fd} else {}
  }

  /** A connection that is ready and closed. */
  lemma WalkCloses(listener: int, before: set<int>, ready: set<int>, entries: seq<PollFd>, i: nat, log: Log, seen: Seen)
    requires Walk(listener, before, ready, entries, i, log, seen) && 0 < i < |entries| && entries[i].ready
    requires Distinct(Fds(entries)) && entries[0].fd == listener
    requires forall k :: i <= k < |entries| ==> entries[k].fd !in log.served && entries[k].fd !in Before(Fds(entries), i)
    ensures Walk(listener, before, ready, Shrunk(entries, i), i + 1,
                 log.(served := log.served + [entries[i].fd], closed := log.closed + {entries[i].fd}),
                 seen.(handled := seen.handled + [Served(entries[i].fd, false)], moved := seen.moved + MovedBy(entries, i)))
  {
    var fd, last, left := entries[i].fd, |entries| - 1, Shrunk(entries, i);
    assert Fds(entries)[0] == listener && Fds(entries)[i] == fd && Fds(entries)[last] == entries[last].fd;
    assert ServedFds(seen.handled + [Served(fd, false)]) == ServedFds(seen.handled) + [fd];
    ShrunkBefore(entries, i);
    forall x | x in before && x in ready && Ahead(entries, i, x) && x != fd && x !in MovedBy(entries, i)
      ensures Ahead(left, i + 1, x)
    {
      var k :| i <= k < |entries| && entries[k].fd == x;
      assert left[k].fd == x;
    }
  }

  lemma ShrunkBefore(entries: seq<PollFd>, i: nat)
    requires i < |entries|
    ensures Before(Fds(entries), i) <= Before(Fds(Shrunk(entries, i)), i + 1)
    ensures forall x :: x in MovedBy(entries, i) ==> x in Before(Fds(Shrunk(entries, i)), i + 1)
  {
    var left := Shrunk(entries, i);
    assert |left| == |entries| - 1 && Fds(left)[..i] == Fds(entries)[..i];
    if i < |entries| - 1 {
      assert Fds(left)[..i + 1] == Fds(entries)[..i] + [entries[|entries| - 1].fd];
    }
  }

  /** When the walk is over: of the connections of before exactly those reported are served that no removal moved. */
  lemma WalkEnds(listener: int, before: set<int>, ready: set<int>, entries: seq<PollFd>, i: nat, log: Log, seen: Seen)
    requires Walk(listener, before, ready, entries, i, log, seen) && i >= |entries| && i > 0 && CameAnew(listener, before, log)
    ensures forall x :: x in before ==> (x in log.served <==> x in ready && x !in seen.moved)
    ensures forall x :: x in log.served ==> x in ready || x in log.came
    ensures log.came == if listener in ready && seen.offered[0] != -1 then seen.offered else []
    ensures listener in ready <==> seen.offered != []
    ensures log.closed == {} ==> seen.moved == {}
  {
  }

  // ---------------------------------------------------------------- the order of the walk

  /** What a walk over the entries from i on has to do: handle each ready one in turn, and go on behind it in the
      table that the answer leaves. */
  ghost predicate Replay(entries: seq<PollFd>, i: nat, handled: seq<Served>, last: seq<PollFd>)
    decreases |entries| - i
  {
    if i >= |entries| then handled == [] && last == entries
    else if !entries[i].ready then Replay(entries, i + 1, handled, last)
    else handled != [] && handled[0].fd == entries[i].fd && Replay(Left(entries, i, handled[0].keep), i + 1, handled[1..], last)
  }

  function Left(entries: seq<PollFd>, i: nat, keep: bool): seq<PollFd>
    requires i < |entries|
  {
    if keep then entries else Shrunk(entries, i)
  }

  /** Having handled that much from start on, the rest of the walk is one over the entries from i on. */
  ghost predicate Leads(start: seq<PollFd>, entries: seq<PollFd>, i: nat, handled: seq<Served>) {
    forall rest, last :: Replay(entries, i, rest, last) ==> Replay(start, 1, handled + rest, last)
  }

  lemma LeadsFirst(start: seq<PollFd>)
    ensures Leads(start, start, 1, [])
  {
    forall rest, last | Replay(start, 1, rest, last) ensures Replay(start, 1, [] + rest, last) {
      assert [] + rest == rest;
    }
  }

  lemma LeadsPast(start: seq<PollFd>, entries: seq<PollFd>, i: nat, handled: seq<Served>)
    requires Leads(start, entries, i, handled) && i < |entries| && !entries[i].ready
    ensures Leads(start, entries, i + 1, handled)
  {
    forall rest, last | Replay(entries, i + 1, rest, last) ensures Replay(start, 1, handled + rest, last) {
      assert Replay(entries, i, rest, last);
    }
  }

  lemma LeadsOn(start: seq<PollFd>, entries: seq<PollFd>, i: nat, handled: seq<Served>, keep: bool)
    requires Leads(start, entries, i, handled) && i < |entries| && entries[i].ready
    ensures Leads(start, Left(entries, i, keep), i + 1, handled + [Served(entries[i].fd, keep)])
  {
    var next := [Served(entries[i].fd, keep)];
    forall rest, last | Replay(Left(entries, i, keep), i + 1, rest, last) ensures Replay(start, 1, handled + next + rest, last) {
      assert (next + rest)[1..] == rest;
      assert Replay(entries, i, next + rest, last);
      assert handled + next + rest == handled + (next + rest);
    }
  }

  lemma LeadsLast(start: seq<PollFd>, entries: seq<PollFd>, i: nat, handled: seq<Served>)
    requires Leads(start, entries, i, handled) && i >= |entries|
    ensures Replay(start, 1, handled, entries)
  {
    assert Replay(entries, i, [], entries) && handled + [] == handled;
  }

  /** The walk is determined by the table, by what is ready and by the answers of the handler. */
  lemma {:induction false} ReplayIsDetermined(entries: seq<PollFd>, i: nat, a: seq<Served>, b: seq<Served>, last: seq<PollFd>, last': seq<PollFd>)
    requires Replay(entries, i, a, last) && Replay(entries, i, b, last')
    requires forall k :: 0 <= k < |a| && k < |b| ==> a[k].keep == b[k].keep
    ensures a == b && last == last'
    decreases |entries| - i
  {
    if i >= |entries| {
    } else if !entries[i].ready {
      ReplayIsDetermined(entries, i + 1, a, b, last, last');
    } else {
      assert forall k :: 0 <= k < |a[1..]| && k < |b[1..]| ==> a[1..][k] == a[k + 1] && b[1..][k] == b[k + 1];
      ReplayIsDetermined(Left(entries, i, a[0].keep), i + 1, a[1..], b[1..], last, last');
      assert a == [a[0]] + a[1..] && b == [b[0]] + b[1..];
    }
  }

  /** The table a walk begins with: the entries that poll has marked, and the newcomer. */
  ghost predicate Marked(start: seq<PollFd>, live: seq<int>, ready: set<int>, came: seq<int>) {
    && Fds(start) == live + came
    && forall k :: 0 <= k < |live| ==> (start[k].ready <==> live[k] in ready)
  }

  lemma MarkedStart(start: seq<PollFd>, marked: seq<PollFd>, live: seq<int>, ready: set<int>, came: seq<int>)
    requires |start| >= |marked| && start[..|marked|] == marked && Fds(marked) == live && Fds(start) == Fds(marked) + came
    requires forall k :: 0 <= k < |marked| ==> (marked[k].ready <==> marked[k].fd in ready)
    ensures Marked(start, live, ready, came)
  {
  }

  /** struct serving_data. */
  class Server {
    const kernel: Kernel
    var pfds: array<PollFd>
    var count: nat

    ghost predicate Wf()
      reads this, pfds, kernel
    {
      && kernel.Valid() && 0 < count <= pfds.Length
      && Holds(Live(), kernel.listener, kernel.accepted)
    }

    ghost function Live(): seq<int>
      requires count <= pfds.Length
      reads this, pfds
    {
      Fds(pfds[..count])
    }

    ghost function Entries(): seq<PollFd>
      requires count <= pfds.Length
      reads this, pfds
    {
      pfds[..count]
    }

    /** serving_init. */
    constructor (kernel: Kernel)
      requires kernel.Valid() && kernel.accepted == {}
      ensures Wf() && this.kernel == kernel && fresh(pfds) && Live() == [kernel.listener]
    {
      this.kernel := kernel;
      count := 1;
      pfds := new PollFd[5](i => PollFd(kernel.listener, false));
    }

    /** add_to_pfds; what the kernel left in revents of the new entry is unknown. */
    method Add(fd: int)
      requires count <= pfds.Length && pfds.Length > 0
      modifies this, pfds
      ensures count == old(count) + 1 <= pfds.Length
      ensures if old(count) < old(pfds.Length) then pfds == old(pfds) else fresh(pfds) && pfds.Length == 2 * old(pfds.Length)
      ensures Live() == Appended(old(Live()), fd)
      ensures Entries()[..old(count)] == old(Entries()) && Entries()[old(count)].fd == fd
    {
      if count == pfds.Length {
        var ready := *;
        var larger := new PollFd[2 * pfds.Length](i => PollFd(0, ready));
        var i := 0;
        while i < count
          invariant 0 <= i <= count == old(count) && pfds == old(pfds) && fresh(larger)
          invariant larger.Length == 2 * pfds.Length && pfds[..] == old(pfds[..])
          invariant forall k :: 0 <= k < i ==> larger[k] == pfds[k]
        {
          larger[i] := pfds[i];
          i := i + 1;
        }
        pfds := larger;
      }
      var ready := *;
      pfds[count] := PollFd(fd, ready);
      count := count + 1;
    }

    /** del_from_pfds. */
    method Delete(i: nat)
      requires i < count <= pfds.Length
      modifies this`count, pfds
      ensures count == old(count) - 1 <= pfds.Length
      ensures Live() == SwapRemoved(old(Live()), i) && Entries() == Shrunk(old(Entries()), i)
    {
      pfds[i] := pfds[count - 1];
      count := count - 1;
    }

    /** The branch for the listener. */
    method AcceptOne(ghost before: set<int>, ghost log: Log, ghost seen: Seen) returns (ghost log': Log, ghost seen': Seen)
      requires 0 < count <= pfds.Length && kernel.Valid() && pfds[0].ready
      requires Midway(kernel.listener, before, kernel.ready, Entries(), 0, kernel.accepted, log, seen)
      modifies this, pfds, kernel`accepted, kernel`offered
      ensures 0 < count <= pfds.Length && kernel.Valid()
      ensures (pfds == old(pfds) || fresh(pfds)) && pfds.Length >= old(pfds.Length)
      ensures kernel.offered == old(kernel.offered) + seen'.offered && seen'.handled == seen.handled == []
      ensures seen.offered == [] && Fds(Entries()) == Fds(old(Entries())) + log'.came
      ensures count >= old(count) && Entries()[..old(count)] == old(Entries())
      ensures Midway(kernel.listener, before, kernel.ready, Entries(), 1, kernel.accepted, log', seen')
    {
      hide Midway, Walk, Pass, Fds, Holds, Distinct, Before;
      ghost var entries, accepted := Entries(), kernel.accepted;
      MidParts(kernel.listener, before, kernel.ready, entries, 0, accepted, log, seen);
      var fd := kernel.Accept();
      if fd != -1 {
        Add(fd);
        MidAccepts(kernel.listener, before, kernel.ready, entries, Entries(), accepted, log, seen, fd);
        log', seen' := Log([], [fd], {}), Seen([fd], [], {});
      } else {
        MidSkips(kernel.listener, before, kernel.ready, entries, 0, accepted, log, seen, [-1]);
        log', seen' := log, seen.(offered := [-1]);
      }
    }

    /** The branch for a connection. */
    method ServeOne(i: nat, ghost before: set<int>, ghost earlier: seq<Served>, ghost start: seq<PollFd>, ghost log: Log, ghost seen: Seen)
      returns (ghost log': Log, ghost seen': Seen)
      requires 0 < i < count <= pfds.Length && kernel.Valid() && pfds[i].ready
      requires Midway(kernel.listener, before, kernel.ready, Entries(), i, kernel.accepted, log, seen)
      requires kernel.handled == earlier + seen.handled && Leads(start, Entries(), i, seen.handled)
      modifies this`count, pfds, kernel`accepted, kernel`handled
      ensures 0 < count <= old(count) <= count + 1 && kernel.Valid()
      ensures kernel.handled == earlier + seen'.handled && seen'.offered == seen.offered && log'.came == log.came
      ensures Leads(start, Entries(), i + 1, seen'.handled)
      ensures Midway(kernel.listener, before, kernel.ready, Entries(), i + 1, kernel.accepted, log', seen')
    {
      hide Midway, Walk, Pass, Fds, Holds, Distinct, Before, Shrunk, SwapRemoved, MovedBy, Leads, Replay;
      ghost var entries, accepted := Entries(), kernel.accepted;
      var fd := pfds[i].fd;
      var keep := kernel.Handle(fd);
      assert kernel.handled == earlier + (seen.handled + [Served(fd, keep)]);
      LeadsOn(start, entries, i, seen.handled, keep);
      if !keep {
        MidCloses(kernel.listener, before, kernel.ready, entries, i, accepted, log, seen);
        log' := log.(served := log.served + [fd], closed := log.closed + {fd});
        seen' := seen.(handled := seen.handled + [Served(fd, false)], moved := seen.moved + MovedBy(entries, i));
        kernel.Close(fd);
        Delete(i);
      } else {
        MidServes(kernel.listener, before, kernel.ready, entries, i, accepted, log, seen);
        log' := log.(served := log.served + [fd]);
        seen' := seen.(handled := seen.handled + [Served(fd, true)]);
      }
    }

    /** serving_poll, when poll succeeds: at most one connection comes in, each connection is served at most
        once, and the table again holds the listener and exactly the open connections. Of the connections there
        before, exactly those that poll reported are served, except those that the removal of another one moved
        behind the walk; the listener is asked exactly if it was reported; and the connections closed are those
        whose handler asked for it. The order of it all is that of a walk over start, the table poll has marked
        and the newcomer behind it. */
    method Poll() returns (ghost log: Log, ghost seen: Seen, ghost start: seq<PollFd>)
      requires Wf()
      modifies this, pfds, kernel
      ensures Wf() && (pfds == old(pfds) || fresh(pfds)) && pfds.Length >= old(pfds.Length)
      ensures exists i: nat :: i >= |Live()| && Pass(kernel.listener, old(kernel.accepted), Live(), i, kernel.accepted, log)
      ensures kernel.polls == old(kernel.polls) + 1
      ensures kernel.offered == old(kernel.offered) + seen.offered && kernel.handled == old(kernel.handled) + seen.handled
      ensures Faithful(log, seen) && (kernel.listener in kernel.ready <==> seen.offered != [])
      ensures forall x :: x in old(kernel.accepted) ==> (x in log.served <==> x in kernel.ready && x !in seen.moved)
      ensures forall x :: x in log.served ==> x in kernel.ready || x in log.came
      ensures log.closed == {} ==> seen.moved == {}
      ensures forall x :: x in seen.moved ==> x in kernel.accepted
      ensures Marked(start, old(Live()), kernel.ready, log.came) && Replay(start, 1, seen.handled, Entries())
    {
      hide Pass, Holds, Fds, Appended, SwapRemoved, Walk, Shrunk, MovedBy, Midway, Faithful, Distinct, Before, Ahead, CameAnew, ServedFds, Leads, Replay, Marked;
      log, seen, start := Log([], [], {}), Seen([], [], {}), [];
      ghost var before, listener := kernel.accepted, kernel.listener;
      kernel.Poll(pfds, count);
      SameFds(pfds[..count], old(pfds[..count]));
      ghost var marked, ready := Entries(), kernel.ready;
      MidStarts(listener, before, kernel.ready, marked);
      var i := 0;
      while i < count
        invariant i <= count + 1 && 0 < count <= pfds.Length && kernel.Valid()
        invariant (pfds == old(pfds) || fresh(pfds)) && pfds.Length >= old(pfds.Length)
        invariant kernel.polls == old(kernel.polls) + 1 && kernel.ready == ready
        invariant kernel.offered == old(kernel.offered) + seen.offered && kernel.handled == old(kernel.handled) + seen.handled
        invariant Midway(listener, before, kernel.ready, Entries(), i, kernel.accepted, log, seen)
        invariant if i == 0 then Entries() == marked && log.came == [] && seen.handled == [] else Leads(start, Entries(), i, seen.handled)
        invariant i > 0 ==> Marked(start, old(Live()), kernel.ready, log.came)
        decreases if i == 0 then 1 else 0, count - i
      {
        assert Entries()[i] == pfds[i];
        ghost var entries, accepted := Entries(), kernel.accepted;
        MidParts(listener, before, kernel.ready, entries, i, accepted, log, seen);
        if pfds[i].ready {
          if pfds[i].fd == kernel.listener {
            log, seen := AcceptOne(before, log, seen);
          } else {
            log, seen := ServeOne(i, before, old(kernel.handled), start, log, seen);
          }
        } else {
          MidSkips(listener, before, kernel.ready, entries, i, accepted, log, seen, seen.offered);
          if i > 0 {
            LeadsPast(start, entries, i, seen.handled);
          }
        }
        if i == 0 {
          start := Entries();
          LeadsFirst(start);
          MarkedStart(start, marked, old(Live()), kernel.ready, log.came);
        }
        i := i + 1;
      }
      MidEnds(listener, before, kernel.ready, Entries(), i, kernel.accepted, log, seen);
      LeadsLast(start, Entries(), i, seen.handled);
    }
  }

  // ---------------------------------------------------------------- both predicates together

  ghost predicate Midway(listener: int, before: set<int>, ready: set<int>, entries: seq<PollFd>, i: nat, accepted: set<int>, log: Log, seen: Seen) {
    && listener !in before && Pass(listener, before, Fds(entries), i, accepted, log)
    && Walk(listener, before, ready, entries, i, log, seen)
  }

  lemma MidStarts(listener: int, before: set<int>, ready: set<int>, entries: seq<PollFd>)
    requires Holds(Fds(entries), listener, before) && listener !in before
    requires forall k :: 0 <= k < |entries| ==> (entries[k].ready <==> entries[k].fd in ready)
    ensures Midway(listener, before, ready, entries, 0, before, Log([], [], {}), Seen([], [], {}))
  {
    WalkStarts(listener, before, ready, entries);
    PassStarts(listener, Fds(entries), before);
  }

  /** The listener is at position 0 and nowhere else. */
  lemma MidParts(listener: int, before: set<int>, ready: set<int>, entries: seq<PollFd>, i: nat, accepted: set<int>, log: Log, seen: Seen)
    requires Midway(listener, before, ready, entries, i, accepted, log, seen) && i < |entries|
    ensures entries[i].fd == listener <==> i == 0
    ensures i == 0 ==> log == Log([], [], {}) && seen == Seen([], [], {})
  {
    hide Walk;
    PassParts(listener, before, Fds(entries), i, accepted, log);
    WalkParts(listener, before, ready, entries, i, accepted, log, seen);
  }

  lemma MidSkips(listener: int, before: set<int>, ready: set<int>, entries: seq<PollFd>, i: nat, accepted: set<int>, log: Log, seen: Seen, offered: seq<int>)
    requires Midway(listener, before, ready, entries, i, accepted, log, seen) && i < |entries|
    requires i > 0 ==> !entries[i].ready && offered == seen.offered
    requires i == 0 ==> offered == if entries[0].ready then [-1] else []
    ensures Midway(listener, before, ready, entries, i + 1, accepted, log, seen.(offered := offered))
  {
    hide Walk, Pass, Holds, Fds;
    MidParts(listener, before, ready, entries, i, accepted, log, seen);
    WalkParts(listener, before, ready, entries, i, accepted, log, seen);
    PassSkips(listener, before, Fds(entries), i, accepted, log);
    WalkSkips(listener, before, ready, entries, i, log, seen, offered);
  }

  lemma MidAccepts(listener: int, before: set<int>, ready: set<int>, entries: seq<PollFd>, more: seq<PollFd>, accepted: set<int>, log: Log, seen: Seen, fd: int)
    requires Midway(listener, before, ready, entries, 0, accepted, log, seen) && |entries| > 0
    requires entries[0].ready && fd != -1 && fd !in accepted && fd != listener
    requires |more| == |entries| + 1 && more[..|entries|] == entries && more[|entries|].fd == fd
    ensures Midway(listener, before, ready, more, 1, accepted + {fd}, Log([], [fd], {}), Seen([fd], [], {}))
  {
    MidParts(listener, before, ready, entries, 0, accepted, log, seen);
    hide Walk, Pass, Holds;
    assert Fds(more) == Appended(Fds(entries), fd);
    PassAccepts(listener, before, Fds(entries), accepted, log, fd);
    WalkAccepts(listener, before, ready, entries, more, fd);
  }

  lemma MidServes(listener: int, before: set<int>, ready: set<int>, entries: seq<PollFd>, i: nat, accepted: set<int>, log: Log, seen: Seen)
    requires Midway(listener, before, ready, entries, i, accepted, log, seen) && 0 < i < |entries| && entries[i].ready
    ensures Midway(listener, before, ready, entries, i + 1, accepted, log.(served := log.served + [entries[i].fd]),
                   seen.(handled := seen.handled + [Served(entries[i].fd, true)]))
  {
    hide Walk, Pass, Holds;
    WalkParts(listener, before, ready, entries, i, accepted, log, seen);
    PassServes(listener, before, Fds(entries), i, accepted, log);
    WalkServes(listener, before, ready, entries, i, log, seen);
  }

  lemma MidCloses(listener: int, before: set<int>, ready: set<int>, entries: seq<PollFd>, i: nat, accepted: set<int>, log: Log, seen: Seen)
    requires Midway(listener, before, ready, entries, i, accepted, log, seen) && 0 < i < |entries| && entries[i].ready
    ensures Midway(listener, before, ready, Shrunk(entries, i), i + 1, accepted - {entries[i].fd},
                   log.(served := log.served + [entries[i].fd], closed := log.closed + {entries[i].fd}),
                   seen.(handled := seen.handled + [Served(entries[i].fd, false)], moved := seen.moved + MovedBy(entries, i)))
  {
    hide Walk, Pass, Holds, MovedBy;
    WalkParts(listener, before, ready, entries, i, accepted, log, seen);
    PassCloses(listener, before, Fds(entries), i, accepted, log);
    WalkCloses(listener, before, ready, entries, i, log, seen);
    assert Fds(Shrunk(entries, i)) == SwapRemoved(Fds(entries), i);
  }

  lemma MidEnds(listener: int, before: set<int>, ready: set<int>, entries: seq<PollFd>, i: nat, accepted: set<int>, log: Log, seen: Seen)
    requires Midway(listener, before, ready, entries, i, accepted, log, seen) && i >= |entries| && i > 0
    ensures Holds(Fds(entries), listener, accepted) && Pass(listener, before, Fds(entries), i, accepted, log) && i >= |Fds(entries)|
    ensures Faithful(log, seen) && (listener in ready <==> seen.offered != [])
    ensures forall x :: x in before ==> (x in log.served <==> x in ready && x !in seen.moved)
    ensures forall x :: x in log.served ==> x in ready || x in log.came
    ensures log.closed == {} ==> seen.moved == {}
    ensures forall x :: x in seen.moved ==> x in accepted
  {
    PassHolds(listener, before, Fds(entries), i, accepted, log);
    PassEnds(listener, before, entries, i, accepted, log, seen, ready);
    WalkEnds(listener, before, ready, entries, i, log, seen);
  }

  lemma SameFds(a: seq<PollFd>, b: seq<PollFd>)
    requires |a| == |b| && forall k :: 0 <= k < |a| ==> a[k].fd == b[k].fd
    ensures Fds(a) == Fds(b)
  {
  }

  lemma WalkStarts(listener: int, before: set<int>, ready: set<int>, entries: seq<PollFd>)
    requires Holds(Fds(entries), listener, before) && forall k :: 0 <= k < |entries| ==> (entries[k].ready <==> entries[k].fd in ready)
    ensures Walk(listener, before, ready, entries, 0, Log([], [], {}), Seen([], [], {}))
  {
    var live := Fds(entries);
    forall x | x in before ensures Ahead(entries, 0, x) {
      assert x in live[1..];
      var k :| 1 <= k < |live| && live[k] == x;
      assert entries[k].fd == x;
    }
  }

  /** What both predicates give at position i. */
  lemma WalkParts(listener: int, before: set<int>, ready: set<int>, entries: seq<PollFd>, i: nat, accepted: set<int>, log: Log, seen: Seen)
    requires Pass(listener, before, Fds(entries), i, accepted, log) && Walk(listener, before, ready, entries, i, log, seen) && i < |entries|
    requires listener !in before
    ensures CameAnew(listener, before, log) && Distinct(Fds(entries)) && entries[0].fd == listener
    ensures i == 0 ==> log == Log([], [], {}) && seen == Seen([], [], {})
    ensures i > 0 ==> forall k :: i <= k < |entries| ==> entries[k].fd !in log.served && entries[k].fd !in Before(Fds(entries), i)
  {
    assert Fds(entries)[0] == entries[0].fd;
    if i > 0 {
      NobodyAhead(listener, before, entries, i, accepted, log);
    }
  }

  lemma PassEnds(listener: int, before: set<int>, entries: seq<PollFd>, i: nat, accepted: set<int>, log: Log, seen: Seen, ready: set<int>)
    requires Pass(listener, before, Fds(entries), i, accepted, log) && Walk(listener, before, ready, entries, i, log, seen)
    requires listener !in before
    ensures CameAnew(listener, before, log) && Faithful(log, seen)
    ensures forall x :: x in seen.moved ==> x in accepted
  {
  }

  lemma PassStarts(listener: int, live: seq<int>, accepted: set<int>)
    requires Holds(live, listener, accepted)
    ensures Pass(listener, accepted, live, 0, accepted, Log([], [], {}))
  {
    hide Holds;
  }

  lemma PassHolds(listener: int, before: set<int>, live: seq<int>, i: nat, accepted: set<int>, log: Log)
    requires Pass(listener, before, live, i, accepted, log)
    ensures Holds(live, listener, accepted)
  {
  }

  /** The listener is at position 0 and nowhere else. */
  lemma PassParts(listener: int, before: set<int>, live: seq<int>, i: nat, accepted: set<int>, log: Log)
    requires Pass(listener, before, live, i, accepted, log) && i < |live|
    ensures live[i] == listener <==> i == 0
  {
  }
}
