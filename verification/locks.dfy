/** Deadlock freedom of concurrent posts. Each post is a database transaction that may wait on
    the index of idempotency keys, then on account inserts in code order, then on balance rows in
    code order, and holds what it got until it ends. */
module Locks {
  import opened Accounts
  import opened Ledger

  datatype Resource = KeySlot(key: Key) | AccountSlot(account: Account) | BalanceSlot(account: Account)
                    | BalanceRow(account: Account)

  // The index of keys, the two inserts per account, the row locks.
  function Phase(r: Resource): nat
  {
    match r
    case KeySlot(_) => 0
    case AccountSlot(_) => 1
    case BalanceSlot(_) => 1
    case BalanceRow(_) => 2
  }

  // The global order in which every post waits.
  predicate Earlier(a: Resource, b: Resource)
  {
    || Phase(a) < Phase(b)
    || (Phase(a) == Phase(b) > 0 &&
        (Before(a.account, b.account) || (a.account == b.account && a.AccountSlot? && b.BalanceSlot?)))
  }

  // The inserts that make sure the accounts exist: each into `accounts`, then into `account_balances`.
  function Inserts(codes: seq<Account>): seq<Resource>
  {
    seq(2 * |codes|, i requires 0 <= i < 2 * |codes| =>
      if i % 2 == 0 then AccountSlot(codes[i / 2]) else BalanceSlot(codes[i / 2]))
  }

  // What a post waits for, in order: its key, if it has one, then its accounts, then their rows.
  function Waits(key: Option<Key>, codes: seq<Account>): seq<Resource>
  {
    (if key.Some? then [KeySlot(key.value)] else []) + Inserts(codes) +
    seq(|codes|, i requires 0 <= i < |codes| => BalanceRow(codes[i]))
  }

  ghost predicate Ascending(waits: seq<Resource>)
  {
    forall i, j | 0 <= i < j < |waits| :: Earlier(waits[i], waits[j])
  }

  lemma EarlierIsOrder(a: Resource, b: Resource, c: Resource)
    ensures !Earlier(a, a)
    ensures Earlier(a, b) && Earlier(b, c) ==> Earlier(a, c)
  {
    if Phase(a) > 0 {
      BelowIsTotal(Code(a.account), Code(a.account));
      if Phase(b) > 0 && Phase(c) > 0 && Before(a.account, b.account) && Before(b.account, c.account) {
        BelowIsTransitive(Code(a.account), Code(b.account), Code(c.account));
      }
    }
  }

  lemma InsertsInOrder(codes: seq<Account>)
    requires InLockOrder(codes)
    ensures Ascending(Inserts(codes))
  {
    var w := Inserts(codes);
    forall i, j | 0 <= i < j < |w| ensures Earlier(w[i], w[j]) {
      assert i / 2 <= j / 2 && (i / 2 == j / 2 ==> i % 2 == 0 && j % 2 == 1);
      assert w[i].account == codes[i / 2] && w[j].account == codes[j / 2];
    }
  }

  lemma AscendingConcat(a: seq<Resource>, b: seq<Resource>)
    requires Ascending(a) && Ascending(b) && forall x, y | x in a && y in b :: Phase(x) < Phase(y)
    ensures Ascending(a + b)
  {
    forall i, j | 0 <= i < j < |a + b| ensures Earlier((a + b)[i], (a + b)[j]) {
      if i < |a| <= j {
        assert a[i] in a && b[j - |a|] in b;
      }
    }
  }

  // The lock list a post computes puts its waits in the global order.
  lemma PostsWaitInOrder(key: Option<Key>, codes: seq<Account>)
    requires InLockOrder(codes)
    ensures Ascending(Waits(key, codes))
  {
    var first := if key.Some? then [KeySlot(key.value)] else [];
    var rows := seq(|codes|, i requires 0 <= i < |codes| => BalanceRow(codes[i]));
    InsertsInOrder(codes);
    AscendingConcat(first, Inserts(codes));
    AscendingConcat(first + Inserts(codes), rows);
  }

  /* ----- the transactions together ----- */

  // `at` is how far the transaction has got through its waits; a finished one holds nothing. An
  // insert that finds its row committed already passes without holding anything.
  datatype Post = Post(waits: seq<Resource>, at: nat, held: set<Resource>, done: bool)

  ghost predicate Blocked(posts: seq<Post>, i: nat)
    requires i < |posts| && posts[i].at < |posts[i].waits|
  {
    exists j | 0 <= j < |posts| && j != i :: !posts[j].done && posts[i].waits[posts[i].at] in posts[j].held
  }

  datatype Move = Take(post: nat, hold: bool) | End(post: nat)

  // A transaction moves when it is not blocked. It may end at any moment it is not waiting: by
  // committing, by finding its key already used, or by failing.
  ghost predicate CanMove(posts: seq<Post>, m: Move)
  {
    && m.post < |posts| && !posts[m.post].done
    && (posts[m.post].at < |posts[m.post].waits| ==> !Blocked(posts, m.post))
    && (m.Take? ==> posts[m.post].at < |posts[m.post].waits|)
  }

  ghost function Moved(posts: seq<Post>, m: Move): seq<Post>
    requires CanMove(posts, m)
  {
    var p := posts[m.post];
    match m
    case End(i) => posts[i := p.(held := {}, done := true)]
    case Take(i, hold) => posts[i := p.(at := p.at + 1, held := if hold then p.held + {p.waits[p.at]} else p.held)]
  }

  // A transaction holds only what it has already waited for, and waits in the global order.
  ghost predicate Orderly(posts: seq<Post>)
  {
    forall i | 0 <= i < |posts| ::
      && Ascending(posts[i].waits) && posts[i].at <= |posts[i].waits|
      && (forall r | r in posts[i].held :: exists k | 0 <= k < posts[i].at :: posts[i].waits[k] == r)
  }

  ghost predicate Fresh(posts: seq<Post>)
  {
    forall i | 0 <= i < |posts| ::
        Ascending(posts[i].waits) && posts[i].at == 0 && posts[i].held == {} && !posts[i].done
  }

  ghost predicate IsSchedule(posts: seq<Post>, moves: seq<Move>)
    decreases |moves|
  {
    moves == [] || (CanMove(posts, moves[0]) && IsSchedule(Moved(posts, moves[0]), moves[1..]))
  }

  ghost function AfterMoves(posts: seq<Post>, moves: seq<Move>): (after: seq<Post>)
    requires IsSchedule(posts, moves)
    ensures |after| == |posts|
    decreases |moves|
  {
    if moves == [] then posts else AfterMoves(Moved(posts, moves[0]), moves[1..])
  }

  lemma MoveKeepsOrder(posts: seq<Post>, m: Move)
    requires Orderly(posts) && CanMove(posts, m)
    ensures Orderly(Moved(posts, m))
  {
    var p, p' := posts[m.post], Moved(posts, m)[m.post];
    forall r | r in p'.held ensures exists k | 0 <= k < p'.at :: p'.waits[k] == r {
      if r in p.held {
        var k :| 0 <= k < p.at && p.waits[k] == r;
        assert p'.waits[k] == r;
      } else {
        assert p'.waits[p.at] == r;
      }
    }
  }

  lemma {:induction false} SchedulesKeepOrder(posts: seq<Post>, moves: seq<Move>)
    requires Orderly(posts) && IsSchedule(posts, moves)
    ensures Orderly(AfterMoves(posts, moves))
    decreases |moves|
  {
    if moves != [] {
      MoveKeepsOrder(posts, moves[0]);
      SchedulesKeepOrder(Moved(posts, moves[0]), moves[1..]);
    }
  }

  // A blocked transaction waits for a resource whose holder, if blocked too, waits for a later one.
  lemma HolderWaitsLater(posts: seq<Post>, i: nat) returns (j: nat)
    requires Orderly(posts) && i < |posts| && !posts[i].done && posts[i].at < |posts[i].waits| && Blocked(posts, i)
    ensures j < |posts| && !posts[j].done
    ensures posts[j].at < |posts[j].waits| ==> Earlier(posts[i].waits[posts[i].at], posts[j].waits[posts[j].at])
  {
    var r := posts[i].waits[posts[i].at];
    j :| 0 <= j < |posts| && j != i && !posts[j].done && r in posts[j].held;
    var k :| 0 <= k < posts[j].at && posts[j].waits[k] == r;
  }

  // The chain of waits ends: some unfinished transaction can move. `seen` are the transactions
  // already known to wait for something earlier than `i` does.
  lemma {:induction false} FollowWaits(posts: seq<Post>, i: nat, seen: set<nat>) returns (m: Move)
    requires Orderly(posts) && i < |posts| && !posts[i].done && i !in seen
    requires forall j | j in seen :: j < |posts| && posts[j].at < |posts[j].waits| &&
               (posts[i].at < |posts[i].waits| ==> Earlier(posts[j].waits[posts[j].at], posts[i].waits[posts[i].at]))
    ensures CanMove(posts, m)
    decreases |posts| - |seen|
  {
    Bounded(seen, |posts|, i);
    if posts[i].at < |posts[i].waits| && Blocked(posts, i) {
      var next := HolderWaitsLater(posts, i);
      var seen' := seen + {i};
      var r := posts[i].waits[posts[i].at];
      if posts[next].at < |posts[next].waits| {
        var r' := posts[next].waits[posts[next].at];
        forall j | j in seen' ensures Earlier(posts[j].waits[posts[j].at], r') {
          EarlierIsOrder(posts[j].waits[posts[j].at], r, r');
        }
        EarlierIsOrder(r', r', r');
      }
      m := FollowWaits(posts, next, seen');
    } else {
      m := End(i);
    }
  }

  // A set of indices that misses one has fewer members than there are indices.
  lemma {:induction false} Bounded(seen: set<nat>, n: nat, i: nat)
    requires (forall j | j in seen :: j < n) && i < n && i !in seen
    ensures |seen| < n
    decreases n
  {
    var last := n - 1;
    if last in seen {
      var rest := seen - {last};
      if i != last {
        Bounded(rest, last, i);
      }
    } else if i != last {
      Bounded(seen, last, i);
    } else {
      BelowCount(seen, last);
    }
  }

  lemma {:induction false} BelowCount(s: set<nat>, n: nat)
    requires forall j | j in s :: j < n
    ensures |s| <= n
    decreases n
  {
    if n == 0 {
      assert s == {};
    } else {
      BelowCount(s - {n - 1}, n - 1);
    }
  }

  // Any number of concurrent posts, over any accounts and keys: whatever has happened so far, as
  // long as one of them is unfinished, some unfinished one can move.
  lemma PostsNeverDeadlock(posts: seq<Post>, moves: seq<Move>, i: nat) returns (m: Move)
    requires Fresh(posts) && IsSchedule(posts, moves) && i < |posts| && !AfterMoves(posts, moves)[i].done
    ensures CanMove(AfterMoves(posts, moves), m)
  {
    SchedulesKeepOrder(posts, moves);
    m := FollowWaits(AfterMoves(posts, moves), i, {});
  }

  // What is left to do.
  ghost function Work(posts: seq<Post>): int
  {
    if posts == [] then 0
    else
      var p := posts[|posts| - 1];
      Work(posts[..|posts| - 1]) + if p.done then 0 else |p.waits| - p.at + 1
  }

  lemma {:induction false} WorkUpdate(posts: seq<Post>, i: nat, p: Post)
    requires i < |posts|
    ensures Work(posts[i := p]) == Work(posts) + (if p.done then 0 else |p.waits| - p.at + 1)
                                   - (if posts[i].done then 0 else |posts[i].waits| - posts[i].at + 1)
    decreases |posts|
  {
    var last := |posts| - 1;
    if i < last {
      WorkUpdate(posts[..last], i, p);
      assert posts[i := p][..last] == posts[..last][i := p];
    } else {
      assert posts[i := p][..last] == posts[..last];
    }
  }

  lemma {:induction false} WorkRemains(posts: seq<Post>)
    requires Orderly(posts)
    ensures Work(posts) >= 0
    decreases |posts|
  {
    if posts != [] {
      var last := |posts| - 1;
      forall i | 0 <= i < last ensures posts[..last][i] == posts[i] {}
      WorkRemains(posts[..last]);
    }
  }

  // Every schedule ends: it has at most as many moves as there is work.
  lemma {:induction false} SchedulesAreFinite(posts: seq<Post>, moves: seq<Move>)
    requires Orderly(posts) && IsSchedule(posts, moves)
    ensures |moves| <= Work(posts)
    decreases |moves|
  {
    if moves == [] {
      WorkRemains(posts);
    } else {
      MoveKeepsOrder(posts, moves[0]);
      WorkUpdate(posts, moves[0].post, Moved(posts, moves[0])[moves[0].post]);
      SchedulesAreFinite(Moved(posts, moves[0]), moves[1..]);
    }
  }

  // The order is what does it: two posts over the same two accounts, each waiting in its own
  // order, can block each other for good.
  lemma UnsortedPostsDeadlock(a: Account, b: Account)
    requires a != b
    ensures var posts := [Post([BalanceRow(a), BalanceRow(b)], 0, {}, false),
        Post([BalanceRow(b), BalanceRow(a)], 0, {}, false)];
      var moves := [Take(0, true), Take(1, true)];
      IsSchedule(posts, moves) && forall m :: !CanMove(AfterMoves(posts, moves), m)
  {
    var posts := [Post([BalanceRow(a), BalanceRow(b)], 0, {}, false),
        Post([BalanceRow(b), BalanceRow(a)], 0, {}, false)];
    var m0, m1 := Take(0, true), Take(1, true);
    var p1 := Moved(posts, m0);
    var p2 := Moved(p1, m1);
    assert [m0, m1][1..] == [m1] && [m1][1..] == [];
    assert IsSchedule(p2, []);
    assert IsSchedule(p1, [m1]);
    assert posts[0].waits[0] == BalanceRow(a);
    assert Blocked(p2, 0) by {
      assert p2[0].waits[p2[0].at] == BalanceRow(b) && BalanceRow(b) in p2[1].held;
    }
    assert Blocked(p2, 1) by {
      assert p2[1].waits[p2[1].at] == BalanceRow(a) && BalanceRow(a) in p2[0].held;
    }
    assert AfterMoves(p1, [m1]) == AfterMoves(p2, []);
    assert AfterMoves(posts, [m0, m1]) == AfterMoves(p1, [m1]);
  }
}
