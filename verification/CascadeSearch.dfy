/** Why the breadth-first search of Rule 2 computes the attribution of `Cascade.dfy`.

    The search state is described through `cause`, which maps every core device to the index of
    the failure that explains it.  `Sound` collects what the search needs to know about it, and
    `CausesAreSound` derives that from the meaning given in `Cascade.dfy`. */
module CascadeSearch {
  import opened Basics
  import opened Cascade

  ghost function Causes(n: Net): map<Device, nat>
    requires Valid(n)
  {
    map d | d in n.down && Core(n, d) :: RootIndex(n, d)
  }

  ghost predicate Sound(n: Net, cause: map<Device, nat>) {
    && (forall d :: d in cause <==> Core(n, d))
    && (forall d :: d in cause ==> IsFailure(n, cause[d]))
    && (forall k: nat :: IsFailure(n, k) && n.order[k] in cause ==> cause[n.order[k]] <= k)
    // causes only move earlier along a link
    && (forall c, d :: c in cause && d in Neighbours(n.adj, c) && d in cause ==> cause[d] <= cause[c])
    && (forall k: nat, d :: IsFailure(n, k) && d in Neighbours(n.adj, n.order[k]) && d in cause ==> cause[d] <= k)
    // a cause that is a core device is its own cause
    && (forall d :: d in cause && n.order[cause[d]] in cause ==> cause[n.order[cause[d]]] == cause[d])
    // the devices explained by a failure are connected to it
    && (forall k: nat, s :: Engulfs(n, cause, k, s) ==> forall d :: d in cause && cause[d] == k ==> d in s)
  }

  ghost predicate IsFailure(n: Net, k: nat) {
    k < |n.order| && n.order[k] in n.down && n.order[k] !in n.held
  }

  /** `s` contains failure `k` and every device it explains that is linked to a member of `s`. */
  ghost predicate Engulfs(n: Net, cause: map<Device, nat>, k: nat, s: set<Device>) {
    && IsFailure(n, k) && n.order[k] in s
    && forall x, y :: x in s && y in Neighbours(n.adj, x) && y in cause && cause[y] == k ==> y in s
  }

  lemma CausesAreSound(n: Net)
    requires Valid(n)
    ensures Sound(n, Causes(n))
  {
    var cause := Causes(n);
    forall d | d in cause
      ensures IsFailure(n, cause[d])
      ensures n.order[cause[d]] in cause ==> cause[n.order[cause[d]]] == cause[d]
    {
      OwnCause(n, d);
    }
    forall k: nat | IsFailure(n, k) && n.order[k] in cause
      ensures cause[n.order[k]] <= k
    {
      FeedsSelf(n, n.order[k]);
    }
    forall c, d | c in cause && d in Neighbours(n.adj, c) && d in cause
      ensures cause[d] <= cause[c]
    {
      CauseStep(n, cause[c], c, d);
    }
    forall k: nat, d | IsFailure(n, k) && d in Neighbours(n.adj, n.order[k]) && d in cause
      ensures cause[d] <= k
    {
      FeedsSelf(n, n.order[k]);
      CauseStep(n, k, n.order[k], d);
    }
    forall k: nat, s, d | Engulfs(n, cause, k, s) && d in cause && cause[d] == k
      ensures d in s
    {
      Engulfed(n, k, s, d);
    }
  }

  lemma OwnCause(n: Net, d: Device)
    requires Valid(n) && Core(n, d)
    ensures IsFailure(n, RootIndex(n, d))
    ensures Core(n, Root(n, d)) ==> RootIndex(n, Root(n, d)) == RootIndex(n, d)
  {
    if Core(n, Root(n, d)) {
      RootMonotone(n, Root(n, d), d);
      FeedsSelf(n, Root(n, d));
    }
  }

  lemma CauseStep(n: Net, k: nat, c: Device, d: Device)
    requires Valid(n) && k < |n.order| && Feeds(n, n.order[k], c)
    requires d in Neighbours(n.adj, c) && Core(n, d)
    ensures RootIndex(n, d) <= k
  {
    FeedsStep(n, n.order[k], c, d);
  }

  lemma Engulfed(n: Net, k: nat, s: set<Device>, d: Device)
    requires Valid(n) && Engulfs(n, Causes(n), k, s)
    requires Core(n, d) && RootIndex(n, d) == k
    ensures d in s
  {
    var p :| Chain(n, p) && p[0] == n.order[k] && p[|p| - 1] == d;
    for j := 0 to |p| - 1
      invariant p[j] in s
    {
      assert Core(n, p[j + 1]) && p[j + 1] in Neighbours(n.adj, p[j]);
      Infix(n, p, j + 1);
      RootMonotone(n, p[j + 1], d);
    }
  }

  lemma Infix(n: Net, p: seq<Device>, k: nat)
    requires Chain(n, p) && 0 < k < |p|
    requires p[0] in n.down && p[0] !in n.held
    ensures Feeds(n, p[0], p[k]) && Feeds(n, p[k], p[|p| - 1])
  {
    var q := p[k..];
    forall j | 0 < j < |q|
      ensures Core(n, q[j]) && q[j] in Neighbours(n.adj, q[j - 1])
    {
      assert q[j] == p[k + j] && q[j - 1] == p[k + j - 1];
    }
    assert Core(n, p[k]);
    assert Chain(n, q) && q[0] == p[k] && q[|q| - 1] == p[|p| - 1];
    assert Chain(n, p[..k + 1]);
  }

  /** Before root `i` is taken, the visited devices are those held by Rule 0, the core devices
      whose root came earlier, and the other down devices that came earlier themselves. */
  ghost predicate Visited(n: Net, cause: map<Device, nat>, i: nat, visited: set<Device>) {
    && n.held <= visited <= n.held + n.down.Keys
    && (forall d :: d in cause ==> (d in visited <==> cause[d] < i))
    && (forall k: nat :: IsFailure(n, k) && n.order[k] !in cause ==> (n.order[k] in visited <==> k < i))
  }

  /** The attribution of `d` by the roots before `i`. */
  ghost function Found(n: Net, cause: map<Device, nat>, i: nat, d: Device): Option<Id> {
    if d in cause && cause[d] < i && IsFailure(n, cause[d]) && n.order[cause[d]] != d
    then Some(n.down[n.order[cause[d]]].id)
    else None
  }

  /** `m` is `base` with the attributions of the roots before `i` written over it. */
  ghost predicate Written(n: Net, cause: map<Device, nat>, i: nat, base: map<Device, Id>, m: map<Device, Id>) {
    forall d :: Get(m, d) == OrElse(Found(n, cause, i, d), Get(base, d))
  }

  /** The attribution of `d` made so far by the root `r`. */
  ghost function Reached(down: map<Device, DownAlert>, r: Device, found: set<Device>, d: Device): Option<Id>
    requires r in down
  {
    if d in found && d != r then Some(down[r].id) else None
  }

  /** `m` is `base` with the attributions made so far by the root `r` written over it. */
  ghost predicate Records(down: map<Device, DownAlert>, r: Device, found: set<Device>,
                          base: map<Device, Id>, m: map<Device, Id>)
    requires r in down
  {
    forall d :: Get(m, d) == OrElse(Reached(down, r, found, d), Get(base, d))
  }

  /** The search from root `i` while `cur` is being expanded: `pending` holds the neighbours of
      `cur` still to be looked at; of every other dequeued device all core neighbours are visited. */
  ghost predicate SearchAt(n: Net, cause: map<Device, nat>, i: nat, start: set<Device>, visited: set<Device>,
                           queue: seq<Device>, cur: Device, pending: set<Device>)
  {
    && IsFailure(n, i)
    && Visited(n, cause, i, start) && n.order[i] !in start
    && start + {n.order[i]} <= visited <= n.held + n.down.Keys
    && cur in visited - start
    && (forall x :: x in visited - start && x != n.order[i] ==> x in cause && cause[x] == i)
    && (forall x :: x in queue ==> x in visited - start)
    && (forall x, y :: x in visited - start && x !in queue && y in Neighbours(n.adj, x) && y in cause ==>
          y in visited || (x == cur && y in pending))
  }

  ghost predicate Search(n: Net, cause: map<Device, nat>, i: nat, start: set<Device>, visited: set<Device>,
                         queue: seq<Device>)
  {
    i < |n.order| && SearchAt(n, cause, i, start, visited, queue, n.order[i], {})
  }

  /** A root already visited was explained by an earlier one, and explains nothing itself. */
  lemma SkipVisited(n: Net, cause: map<Device, nat>, i: nat, visited: set<Device>)
    requires Sound(n, cause) && i < |n.order| && Visited(n, cause, i, visited)
    requires n.order[i] in visited && n.order[i] in n.down
    ensures Visited(n, cause, i + 1, visited)
    ensures forall d :: Found(n, cause, i + 1, d) == Found(n, cause, i, d)
  {
    assert forall d :: d in cause ==> cause[d] != i;
  }

  /** Taking an unvisited root starts a search. */
  lemma StartSearch(n: Net, cause: map<Device, nat>, i: nat, visited: set<Device>)
    requires Sound(n, cause) && i < |n.order| && Visited(n, cause, i, visited)
    requires n.order[i] in n.down && n.order[i] !in visited
    ensures Search(n, cause, i, visited, visited + {n.order[i]}, [n.order[i]])
  {
  }

  /** The failure-time guard never rejects a neighbour that is still unvisited. */
  lemma UnvisitedFailedLater(n: Net, cause: map<Device, nat>, i: nat, start: set<Device>, nb: Device)
    requires InFailureOrder(n.order, n.down) && Sound(n, cause) && Visited(n, cause, i, start)
    requires IsFailure(n, i) && nb in n.down && nb !in start
    ensures n.down[n.order[i]].at <= n.down[nb].at
  {
    assert nb in n.order;
    var k :| 0 <= k < |n.order| && n.order[k] == nb;
    assert IsFailure(n, k);
    assert i <= k;
  }

  /** A closed unvisited neighbour of a device reached from root `i` is explained by root `i`. */
  lemma Reach(n: Net, cause: map<Device, nat>, i: nat, start: set<Device>, visited: set<Device>,
              cur: Device, nb: Device)
    requires Sound(n, cause) && IsFailure(n, i) && Visited(n, cause, i, start) && start <= visited
    requires cur == n.order[i] || (cur in cause && cause[cur] == i)
    requires nb in Neighbours(n.adj, cur) && nb !in visited && Closed(n, nb)
    ensures nb in cause && cause[nb] == i
  {
    assert Core(n, nb);
  }

  /** Enqueueing such a neighbour keeps the search on course. */
  lemma Enqueue(n: Net, cause: map<Device, nat>, i: nat, start: set<Device>, visited: set<Device>,
                queue: seq<Device>, cur: Device, pending: set<Device>, nb: Device)
    requires SearchAt(n, cause, i, start, visited, queue, cur, pending)
    requires nb !in visited && nb in n.down && nb in cause && cause[nb] == i
    ensures SearchAt(n, cause, i, start, visited + {nb}, queue + [nb], cur, pending - {nb})
    ensures visited + {nb} - start == visited - start + {nb}
  {
  }

  /** Passing over a neighbour that is visited or not a core device loses nothing. */
  lemma PassOver(n: Net, cause: map<Device, nat>, i: nat, start: set<Device>, visited: set<Device>,
                 queue: seq<Device>, cur: Device, pending: set<Device>, nb: Device)
    requires SearchAt(n, cause, i, start, visited, queue, cur, pending)
    requires nb in visited || nb !in cause
    ensures SearchAt(n, cause, i, start, visited, queue, cur, pending - {nb})
  {
  }

  lemma RecordOne(down: map<Device, DownAlert>, r: Device, found: set<Device>,
                  base: map<Device, Id>, m: map<Device, Id>, nb: Device)
    requires r in down && nb != r
    requires Records(down, r, found, base, m)
    ensures Records(down, r, found + {nb}, base, m[nb := down[r].id])
  {
  }

  lemma RecordNone(down: map<Device, DownAlert>, r: Device, start: set<Device>, base: map<Device, Id>)
    requires r in down
    ensures Records(down, r, start + {r} - start, base, base)
  {
  }

  /** Dequeueing hands the device's neighbours over to the expansion. */
  lemma Dequeue(n: Net, cause: map<Device, nat>, i: nat, start: set<Device>, visited: set<Device>,
                queue: seq<Device>)
    requires queue != [] && Search(n, cause, i, start, visited, queue)
    ensures SearchAt(n, cause, i, start, visited, queue[1..], queue[0], Neighbours(n.adj, queue[0]))
  {
    assert queue == [queue[0]] + queue[1..];
  }

  /** When the queue is empty, root `i` has reached everything it explains. */
  lemma FinishSearch(n: Net, cause: map<Device, nat>, i: nat, start: set<Device>, visited: set<Device>)
    requires Sound(n, cause) && Search(n, cause, i, start, visited, [])
    requires forall k, l :: 0 <= k < l < |n.order| ==> n.order[k] != n.order[l]
    ensures Visited(n, cause, i + 1, visited)
    ensures forall d :: d in cause ==> (d in visited - start <==> cause[d] == i)
  {
    assert Engulfs(n, cause, i, visited - start);
  }

  /** What root `i` wrote over the earlier roots' attributions is what the roots up to `i` write. */
  lemma WrittenMore(n: Net, cause: map<Device, nat>, i: nat, found: set<Device>,
                    base: map<Device, Id>, m0: map<Device, Id>, m: map<Device, Id>)
    requires IsFailure(n, i) && Written(n, cause, i, base, m0)
    requires Records(n.down, n.order[i], found, m0, m)
    requires forall d :: d in cause ==> (d in found <==> cause[d] == i)
    requires forall d :: d in found && d != n.order[i] ==> d in cause
    ensures Written(n, cause, i + 1, base, m)
  {
    forall d
      ensures Get(m, d) == OrElse(Found(n, cause, i + 1, d), Get(base, d))
    {
      assert Get(m, d) == OrElse(Reached(n.down, n.order[i], found, d), Get(m0, d));
      assert Get(m0, d) == OrElse(Found(n, cause, i, d), Get(base, d));
    }
  }

  /** Nothing is visited before the first root but what Rule 0 holds, and nothing is written. */
  lemma Untouched(n: Net, cause: map<Device, nat>, base: map<Device, Id>)
    requires Sound(n, cause)
    ensures Visited(n, cause, 0, n.held)
    ensures Written(n, cause, 0, base, base)
  {
  }

  lemma AllFound(n: Net, d: Device)
    requires Valid(n)
    ensures Found(n, Causes(n), |n.order|, d) == Attribution(n, d)
  {
    if Core(n, d) { RootIsRoot(n, d); }
  }

  lemma AllWritten(n: Net, base: map<Device, Id>, m: map<Device, Id>)
    requires Valid(n) && Written(n, Causes(n), |n.order|, base, m)
    ensures Overlays(n, base, m)
  {
    forall d
      ensures Get(m, d) == OrElse(Attribution(n, d), Get(base, d))
    {
      AllFound(n, d);
    }
  }
}
